# Template engine core, modelled in Dafny

This project models the core of a Java templating engine:

- the recursive-descent parser for value terms (`ValueParser`);
- the list-literal term (`ListTerm`);
- the segment loop that builds the node tree of a template (`Document.parse`);
- the block accumulator of directive builders (`NodeBuilder`);
- the loop stream that yields `(index, isLast, value)` triples (`Stream`);
- the bounded least-recently-used cache (`LruMap`).

Properties are proved about each of them.

The value parser appears twice.

- Module `ValueGrammar` writes it as functions that take a token sequence and a cursor position. Each returns the parsed value and the position after it, or the error that aborts the parse.
- Module `ValueParser` writes it as methods over a mutable tokenizer cursor (`Tokens.Tokenizer`). These follow the Java control flow statement by statement. Each method is proved to compute exactly the function of the same name.
- `ValueGrammarProperties` proves a round trip. A renderer writes any well-formed term back as tokens, and parsing those tokens yields the same term and stops right after them. "Well-formed" means no map literal inside the term repeats a key.
- `ValueGrammarFacts` states the individual grammar rules as lemmas:
  - which tokens can start a term;
  - that `.name` is the string index `["name"]`;
  - the index and slice forms;
  - that a trailing colon is ignored;
  - empty lists;
  - that trailing commas are rejected;
  - map keys.

The segment loop is modelled as written. In the Java `switch`, the `TAG` case has no `break`, so it falls into the `FIXED` case. Every tag that does not end a block is therefore added as a fixed node, and a chainable tag is both chained and followed by a fixed node. The `else` branch at Document.java:55-57 sets the child to the tag node, but the fall-through into the `FIXED` case at Document.java:58-60 then replaces it with a fixed node. This model follows the code, and `Document.TagsBecomeFixed` and `Document.NoTagNodes` state the consequence.

The node tree is a value. `Document.Flatten` lists what a walk through it meets in document order. The lemmas relate that list to the segments read. That list does not show which node holds which, so `Document.Children` lists a node's direct children in the order they were added, and `Document.BlockNesting` and `Document.LeafNesting` state which child each segment adds and which segments end up inside a block. `Document.Balance` counts block openers minus end-block tags, and `Document.FillStopsAtMatchingEnd` uses it to say, independently of the loop, where each level stops.

The cache keeps its state as a map and an access order, least recently used first:

- `GetSpec` and `PutSpec` give what `get` and `put` do to that state in an access-ordered `LinkedHashMap` with the `removeEldestEntry` override.
- The class methods are proved to follow those functions.
- The lemmas give the bound, eviction and order guarantees.

## Model

| member | source | states |
|---|---|---|
| ValueGrammar.Parse | src/main/java/com/catascopic/template/expr/ValueParser.java:23-49 | a successful parse consumes at least one token and stops where no `.` or `[` follows |
| ValueGrammar.Primary | src/main/java/com/catascopic/template/expr/ValueParser.java:24-38 | a parsed primary consumes a token; a token that is not a value, identifier or symbol fails with "unexpected token" |
| ValueGrammar.Postfix | src/main/java/com/catascopic/template/expr/ValueParser.java:39-48 | the postfix loop stops exactly when neither `.` nor `[` follows, returning the term unchanged then |
| ValueGrammar.ParseSymbol | src/main/java/com/catascopic/template/expr/ValueParser.java:51-68 | `+ - !` give a unary term with that operator, `[` a list, `{` a map, `(` ends after a `)`; any other symbol cannot succeed |
| ValueGrammar.ParseIdentifier | src/main/java/com/catascopic/template/expr/ValueParser.java:70-77 | without `(` the identifier is a variable and nothing is consumed; with `(` it is a call of that name ending at `)` |
| ValueGrammar.ParseIndex | src/main/java/com/catascopic/template/expr/ValueParser.java:79-115 | the result is an index or a slice of the given target and ends at `]` |
| ValueGrammar.SliceStop | src/main/java/com/catascopic/template/expr/ValueParser.java:91-110 | after the first colon the result is a slice keeping target and start, ending at `]` |
| ValueGrammar.SliceStep | src/main/java/com/catascopic/template/expr/ValueParser.java:106-114 | after the second colon the result is a slice keeping target, start and stop, ending at `]` |
| ValueGrammar.ParseExpressions | src/main/java/com/catascopic/template/expr/ValueParser.java:117-128 | the closer right away gives the empty list; a success ends at the closer |
| ValueGrammar.ParseItems | src/main/java/com/catascopic/template/expr/ValueParser.java:122-127 | items already read stay in front, in order, and at least one more is added before the closer |
| ValueGrammar.ParseMap | src/main/java/com/catascopic/template/expr/ValueParser.java:130-143 | `}` right away gives the empty map; a success ends at `}` |
| ValueGrammar.ParseEntries | src/main/java/com/catascopic/template/expr/ValueParser.java:134-142 | entries read stay in front, in order; the result has distinct keys |
| ValueGrammar.RepeatedKey | src/main/java/com/catascopic/template/expr/ValueParser.java:139-142 | no repeated key exactly when the keys are distinct; a reported key occurs twice |
| ValueGrammar.CloseMap | src/main/java/com/catascopic/template/expr/ValueParser.java:141-142 | the map closes exactly when `}` follows and the keys are distinct |
| ValueGrammar.ParseKey | src/main/java/com/catascopic/template/expr/ValueParser.java:145-159 | a key is read exactly from an identifier or a string literal, giving its text; anything else fails with "expected key" naming the token |
| Terms.UnaryOperator | src/main/java/com/catascopic/template/expr/ValueParser.java:53-56 | the operator of a unary symbol maps back to that symbol |
| ValueParser.Parse | src/main/java/com/catascopic/template/expr/ValueParser.java:23-49 | the method's result and final cursor are those of `ValueGrammar.Parse` from the starting cursor |
| ValueParser.ParseSymbol | src/main/java/com/catascopic/template/expr/ValueParser.java:51-68 | the method's result and final cursor are those of `ValueGrammar.ParseSymbol` |
| ValueParser.ParseIdentifier | src/main/java/com/catascopic/template/expr/ValueParser.java:70-77 | the method's result and final cursor are those of `ValueGrammar.ParseIdentifier` |
| ValueParser.ParseIndex | src/main/java/com/catascopic/template/expr/ValueParser.java:79-90 | the method's result and final cursor are those of `ValueGrammar.ParseIndex` |
| ValueParser.SliceStop | src/main/java/com/catascopic/template/expr/ValueParser.java:91-105 | the method's result and final cursor are those of `ValueGrammar.SliceStop` |
| ValueParser.SliceStep | src/main/java/com/catascopic/template/expr/ValueParser.java:106-114 | the method's result and final cursor are those of `ValueGrammar.SliceStep` |
| ValueParser.ParseExpressions | src/main/java/com/catascopic/template/expr/ValueParser.java:117-128 | the loop's result and final cursor are those of `ValueGrammar.ParseExpressions` |
| ValueParser.ParseMap | src/main/java/com/catascopic/template/expr/ValueParser.java:130-143 | the loop's result and final cursor are those of `ValueGrammar.ParseMap` |
| ValueParser.ParseKey | src/main/java/com/catascopic/template/expr/ValueParser.java:145-159 | the method's result and final cursor are those of `ValueGrammar.ParseKey` |
| ValueGrammarProperties.ParseRender | src/main/java/com/catascopic/template/expr/ValueParser.java:23-49 | parsing the rendering of any well-formed term gives that term back and stops right after its tokens |
| ValueGrammarProperties.IndexRender | src/main/java/com/catascopic/template/expr/ValueParser.java:79-88 | the tokens `target [ i ]` parse to the index term, then the postfix loop continues |
| ValueGrammarProperties.SliceRender | src/main/java/com/catascopic/template/expr/ValueParser.java:79-115 | every slice shape, with any of start, stop and step omitted, parses back to the same slice |
| ValueGrammarProperties.ParseExpressionsRender | src/main/java/com/catascopic/template/expr/ValueParser.java:117-128 | comma-separated items followed by the closer parse to the same items in the same order |
| ValueGrammarProperties.ParseMapRender | src/main/java/com/catascopic/template/expr/ValueParser.java:130-143 | `"key": value` pairs with distinct keys followed by `}` parse to the same entries in order |
| ValueGrammarFacts.StartToken | src/main/java/com/catascopic/template/expr/ValueParser.java:24-38 | a parse succeeds only from a token that can start a term; at end of input it fails naming the end token; a symbol that cannot start fails with "unexpected symbol" |
| ValueGrammarFacts.ValueStart | src/main/java/com/catascopic/template/expr/ValueParser.java:27-29 | a literal token becomes a value term, then the postfix loop runs |
| ValueGrammarFacts.IdentifierStart | src/main/java/com/catascopic/template/expr/ValueParser.java:30-32 | an identifier without `(` is a variable, and with `(` a call over the argument list; both are followed by the postfix loop |
| ValueGrammarFacts.DotIsStringIndex | src/main/java/com/catascopic/template/expr/ValueParser.java:40-42 | `.name` and `["name"]` continue with the same term, an index by the string `name` |
| ValueGrammarFacts.PostfixChain | src/main/java/com/catascopic/template/expr/ValueParser.java:39-48 | `[` applies the index parser to the term so far and continues from there; `.` not followed by an identifier fails; anything else ends the chain |
| ValueGrammarFacts.UnaryWrapsChain | src/main/java/com/catascopic/template/expr/ValueParser.java:53-56 | a unary operator applies to the whole term after it, postfix chain included |
| ValueGrammarFacts.ParenthesisMustClose | src/main/java/com/catascopic/template/expr/ValueParser.java:57-60 | a parenthesised term continues after `)`; without the `)` the parse fails naming the token found |
| ValueGrammarFacts.IndexOrSlice | src/main/java/com/catascopic/template/expr/ValueParser.java:79-115 | the result is an index exactly when an expression is directly followed by `]`, and otherwise a slice |
| ValueGrammarFacts.SliceWithoutStart | src/main/java/com/catascopic/template/expr/ValueParser.java:81-82 | a leading colon gives a slice with no start |
| ValueGrammarFacts.SliceEndsAfterStart | src/main/java/com/catascopic/template/expr/ValueParser.java:91-94 | `]` after the first colon gives a slice with no stop and no step |
| ValueGrammarFacts.TrailingColon | src/main/java/com/catascopic/template/expr/ValueParser.java:106-110 | `]` after the second colon gives a slice with no step |
| ValueGrammarFacts.TrailingColonRender | src/main/java/com/catascopic/template/expr/ValueParser.java:95-110 | `[i:j:]` parses exactly as `[i:j]`, the trailing colon being ignored |
| ValueGrammarFacts.EmptyExpressions | src/main/java/com/catascopic/template/expr/ValueParser.java:119-121 | the closer right away gives the empty list |
| ValueGrammarFacts.ItemsMustClose | src/main/java/com/catascopic/template/expr/ValueParser.java:123-126 | an item followed by neither a comma nor the closer fails naming the token found |
| ValueGrammarFacts.TrailingCommaRejected | src/main/java/com/catascopic/template/expr/ValueParser.java:123-140 | a comma directly before the closer is rejected, in lists and argument lists as in maps |
| ValueGrammarFacts.KeyForms | src/main/java/com/catascopic/template/expr/ValueParser.java:145-159 | identifier and string keys give their text; any other token fails as a key and so fails the map |
| ValueGrammarFacts.MapKeysDistinct | src/main/java/com/catascopic/template/expr/ValueParser.java:134-142 | a parsed map never holds a key twice |
| ValueGrammarFacts.RepeatedKeyRejected | src/main/java/com/catascopic/template/expr/ValueParser.java:139-142 | entries that repeat a key fail at the closing brace, naming the key |
| ListTerm.Evaluate | src/main/java/au/com/codeka/carrot/expr/ListTerm.java:17-20 | the result has one value per item, and value i is the scope applied to item i |
| ListTerm.MapItems | src/main/java/au/com/codeka/carrot/expr/ListTerm.java:17-20 | the same, element by element |
| ListTerm.EvaluateEmpty | src/main/java/au/com/codeka/carrot/expr/ListTerm.java:17-20 | an empty list literal evaluates to the empty list |
| ListTerm.EvaluateAppend | src/main/java/au/com/codeka/carrot/expr/ListTerm.java:17-20 | evaluating concatenated items is concatenating their evaluations |
| ListTerm.ToString | src/main/java/au/com/codeka/carrot/expr/ListTerm.java:22-25 | the text is bracketed, is `[]` for no items and `[x]` for one |
| ListTerm.Join | src/main/java/au/com/codeka/carrot/expr/ListTerm.java:22-25 | no items give no text and one item gives its own text; with n items the text is at least the 2(n-1) characters of the separators |
| ListTerm.JoinLast | src/main/java/au/com/codeka/carrot/expr/ListTerm.java:22-25 | with more than one item, the text is the join of all but the last item, one `, `, then the last item's text, so consecutive items are separated by exactly one `, ` |
| ListTerm.JoinAppend | src/main/java/au/com/codeka/carrot/expr/ListTerm.java:22-25 | joining two runs puts exactly one separator between them |
| Document.Add | src/main/java/au/com/codeka/carrot/tmpl/Document.java:67 | after an add, a walk of the node meets what it met before and then the child |
| Document.Chain | src/main/java/au/com/codeka/carrot/tmpl/Document.java:53 | after a chain, a walk meets what it met before and then the chained tag |
| Document.Current | src/main/java/au/com/codeka/carrot/tmpl/Document.java:48-57 | only a chainable tag moves the current node on to the chained one; otherwise it stays the same |
| Document.ChildOf | src/main/java/au/com/codeka/carrot/tmpl/Document.java:41-60 | the node added for a segment is a fresh node without children made from that segment: an echo node exactly for ECHO, otherwise a fixed node, never a tag node |
| Document.Fill | src/main/java/au/com/codeka/carrot/tmpl/Document.java:29-68 | the loop reads forward and never past the end of the segments |
| Document.AddStep | src/main/java/au/com/codeka/carrot/tmpl/Document.java:64-67 | a block node is filled from the following segments before it is added; other nodes are added at once |
| Document.FillEvents | src/main/java/au/com/codeka/carrot/tmpl/Document.java:29-68 | the filled tree lists, after the original node, one entry per segment read, in segment order |
| Document.FillKeepsChildren | src/main/java/au/com/codeka/carrot/tmpl/Document.java:29-68 | the loop only appends children: the children a node had before are still its first children, unchanged |
| Document.BlockNesting | src/main/java/au/com/codeka/carrot/tmpl/Document.java:46-67 | for a block-opening segment, the next child added is the segment's node filled by a nested loop from the following segment; that loop stops right after the first end-block tag not matched by a block opener it read (every earlier run has at least as many openers as end tags, the whole run one end tag more), or at the end of input when there is no such tag; the outer loop goes on after it |
| Document.LeafNesting | src/main/java/au/com/codeka/carrot/tmpl/Document.java:64-67 | for any other adding segment, the next child added is the segment's own node, with no children |
| Document.EndOfInputClosesAll | src/main/java/au/com/codeka/carrot/tmpl/Document.java:31-35 | without end tags the loop reads to the end of input, leaving open blocks closed by it |
| Document.StopsAfterEndTag | src/main/java/au/com/codeka/carrot/tmpl/Document.java:46-47 | the loop stops only at the end of input or right after an end-block tag |
| Document.EndTagCloses | src/main/java/au/com/codeka/carrot/tmpl/Document.java:46-47 | an end-block tag read by the loop is consumed and returns the node as it was, without adding the tag |
| Document.FillStopsAtMatchingEnd | src/main/java/au/com/codeka/carrot/tmpl/Document.java:29-68 | counted independently of the loop: it stops right after the first end-block tag that no block opener read before it matches, and reaches the end of input only when there is none |
| Document.StopsAtUnique | src/main/java/au/com/codeka/carrot/tmpl/Document.java:29-68 | the stopping point that characterisation gives is unique, so it fixes where each level of the loop ends |
| Document.TagsBecomeFixed | src/main/java/au/com/codeka/carrot/tmpl/Document.java:44-60 | a non-end tag read by the loop ends up as a fixed node and never as a tag node |
| Document.NoTagNodes | src/main/java/au/com/codeka/carrot/tmpl/Document.java:44-60 | no segment sequence ever adds a tag node |
| Document.OneNodePerSegment | src/main/java/au/com/codeka/carrot/tmpl/Document.java:37-67 | the loop adds exactly one node per echo, fixed or non-end tag segment read, so at most one per segment |
| Document.SegmentReader.GetNext | src/main/java/au/com/codeka/carrot/tmpl/Document.java:30-35 | the next segment in order, or nothing at the end, where the reader stays put |
| Document.Parse | src/main/java/au/com/codeka/carrot/tmpl/Document.java:26-69 | the filled node and the segments consumed are those of `Document.Fill` from the reader's starting position |
| NodeBuilder.DefaultBuildElse | src/main/java/com/catascopic/template/parse/NodeBuilder.java:29-31 | the default else-branch builder always fails with "else not allowed" |
| NodeBuilder.NodeBuilder.constructor | src/main/java/com/catascopic/template/parse/NodeBuilder.java:10 | a new builder holds no nodes |
| NodeBuilder.NodeBuilder.Add | src/main/java/com/catascopic/template/parse/NodeBuilder.java:12-15 | the node is appended, the earlier nodes unchanged |
| NodeBuilder.NodeBuilder.Build | src/main/java/com/catascopic/template/parse/NodeBuilder.java:17-22 | the block passed on holds exactly the added nodes in order, with no else branch; the builder is unchanged |
| NodeBuilder.NodeBuilder.BuildElse | src/main/java/com/catascopic/template/parse/NodeBuilder.java:24-31 | the same block plus the else branch when the builder accepts one, else the "else not allowed" failure |
| NodeBuilder.BuildThenAdd | src/main/java/com/catascopic/template/parse/NodeBuilder.java:17-20 | a block already built is a copy: a later add leaves it as it was |
| Stream.Int32 | src/main/java/com/catascopic/template/Stream.java:22 | the counter is a Java int: always in range, and equal to the count while the count fits |
| Stream.Int32Increment | src/main/java/com/catascopic/template/Stream.java:32 | `i++` on the wrapped counter gives the wrapped next count |
| Stream.TriplesFromAt | src/main/java/com/catascopic/template/Stream.java:30-33 | triple k is the item at that position with its index and whether it is the final item |
| Stream.TriplesShape | src/main/java/com/catascopic/template/Stream.java:18-35 | n items give n triples; values in order; indexes 0, 1, 2, ...; only the final triple is last; no items give none |
| Stream.StreamIterator.constructor | src/main/java/com/catascopic/template/Stream.java:19-22 | a new iterator is at the first item with counter 0 |
| Stream.StreamIterator.HasNext | src/main/java/com/catascopic/template/Stream.java:25-27 | there is a next triple exactly when items remain |
| Stream.StreamIterator.Next | src/main/java/com/catascopic/template/Stream.java:30-33 | hands out the next triple of the traversal and moves on; when exhausted it fails with no element and changes nothing |
| Stream.Stream.Iterator | src/main/java/com/catascopic/template/Stream.java:18-22 | each call gives a fresh iterator at the first item with counter 0 |
| Stream.Stream.ToString | src/main/java/com/catascopic/template/Stream.java:38-40 | the text is `stream of ` followed by the text of the items |
| LruMap.SizeIsOrderLength | src/main/java/com/catascopic/template/LruMap.java:7 | the access order lists each key of the map once, so sizes agree |
| LruMap.GetSpec | src/main/java/com/catascopic/template/LruMap.java:20 | get in access order: it answers the value exactly when the key is present, leaves the entries alone, moves a present key to most recently used and leaves the order alone on a miss |
| LruMap.PutSpec | src/main/java/com/catascopic/template/LruMap.java:20-27 | put answers the previous value exactly when the key was present; the key, if kept, maps to the new value, every other kept key keeps its old value, and replacing a value neither adds nor removes keys |
| LruMap.GetConsistent | src/main/java/com/catascopic/template/LruMap.java:20 | a get keeps the order and the map in step and changes no entry |
| LruMap.GetTouches | src/main/java/com/catascopic/template/LruMap.java:20 | a get of a present key makes it the most recently used and leaves the other keys in order |
| LruMap.PutConsistent | src/main/java/com/catascopic/template/LruMap.java:20-27 | a put keeps the order and the map in step |
| LruMap.SizeBound | src/main/java/com/catascopic/template/LruMap.java:24-27 | with maxEntries at least 1, a cache within its bound stays within it after a put |
| LruMap.PutKeyPresent | src/main/java/com/catascopic/template/LruMap.java:24-27 | with maxEntries at least 1, the key just put holds its new value and is the most recently used |
| LruMap.EvictsOnlyEldest | src/main/java/com/catascopic/template/LruMap.java:24-27 | a put removes no key but the least recently used one, and changes no value but the one put |
| LruMap.EvictsWhenOverflowing | src/main/java/com/catascopic/template/LruMap.java:24-27 | inserting a new key past maxEntries evicts the least recently used key and appends the new one |
| LruMap.NoEvictionWithinBound | src/main/java/com/catascopic/template/LruMap.java:24-27 | inserting a new key that still fits within maxEntries evicts nothing: the key is appended as most recently used and every entry stays |
| LruMap.ReadProtects | src/main/java/com/catascopic/template/LruMap.java:20-27 | once an entry is read, the next insertion of a new key does not evict it unless it is the only entry |
| LruMap.PutKeepsRelativeOrder | src/main/java/com/catascopic/template/LruMap.java:20-27 | the keys other than the one put keep their relative order, minus the eldest when it is evicted |
| LruMap.LruMap.constructor | src/main/java/com/catascopic/template/LruMap.java:11-13 | an empty cache bounded by maxEntries |
| LruMap.LruMap.WithCapacity | src/main/java/com/catascopic/template/LruMap.java:15-17 | an empty cache bounded by maxEntries; the capacity argument has no effect |
| LruMap.LruMap.WithLoadFactor | src/main/java/com/catascopic/template/LruMap.java:19-22 | an empty cache bounded by maxEntries; only maxEntries matters |
| LruMap.LruMap.RemoveEldestEntry | src/main/java/com/catascopic/template/LruMap.java:24-27 | eviction is asked for exactly when the map holds more than maxEntries entries |
| LruMap.LruMap.Get | src/main/java/com/catascopic/template/LruMap.java:20 | result and new state are those of `LruMap.GetSpec`; the invariant is kept |
| LruMap.LruMap.Put | src/main/java/com/catascopic/template/LruMap.java:20-27 | result and new state are those of `LruMap.PutSpec`; the invariant is kept |

## Left out

- Nested full expressions are not modelled separately. `tokenizer.parseExpression()` and `ExpressionParser.parse` have no binary operators or precedence levels here: they parse with the value parser itself. The expression parser is not part of this model.
- The tokenizer is not part of this model. `Tokens.Tokenizer` is a cursor over a finished token sequence. Lexing, source positions in error messages and the `TemplateParseException` text are not modelled; errors are `ParseError` values naming the token.
- Floating-point literals are kept as `real`. Literals are only carried through, never computed with.
- Guava's `ImmutableMap.Builder` rejects a repeated key only when the map is built. The model reports it after the closing brace, as `DuplicateKey`, at that same point.
- Term classes (`ValueTerm`, `IndexTerm`, `SliceTerm`, `FunctionTerm`, `MapTerm`, `UnaryTerm`) are constructors of one `Term` datatype. Their evaluation is not part of this model.
- ListTerm.Evaluate: `Lists.transform` returns a lazy view that applies the scope on each read. The model returns the finished list, so repeated reads re-evaluating items is not captured. The scope is a function parameter.
- ListTerm.ToString: how a single item prints is a parameter.
- Document.Parse: the predicates it calls on unseen classes are flags on each segment. `isEndBlock`, `canChain` and `isBlockNode` are therefore fixed per segment. In particular, `canChain` does not depend on the current node.
- `TagNode.create`, `TagNode.createEcho`, `FixedNode.create` and their exceptions are not part of this model. Nodes are recorded by the segment that made them.
- Document.Parse: the `default` branch, which throws "Unknown token type", is unreachable with the four segment kinds, so it is not modelled.
- `Document.parse(Reader, Configuration)`, the `Parser` lexer, `IOException` and the `Configuration` argument are left out. They are I/O and plumbing.
- NodeBuilder: the concrete subclasses' `build` methods are not modelled. What a build produces is the request passed to them: the block and the optional else branch.
- Stream.Stream.ToString: how the wrapped collection prints is a parameter.
- Stream: the wrapped collection is a finished sequence. A collection changed during iteration is not modelled.
- Stream.StreamIterator.Next: the triple is a datatype, not a mutable `List<Object>`.
- LruMap: hashing, table capacity and resizing are left out, since they do not affect what the map shows. Key equality is Dafny equality.
- LruMap.LruMap.WithLoadFactor: `LinkedHashMap` throws for a non-positive load factor. The model requires a positive one instead.
- LruMap: only `get` and `put` are modelled. Other `LinkedHashMap` operations such as `remove` and iteration views are not part of this model.
- LruMap: the class is not synchronized, and concurrent use is not modelled.
- Template rendering, output writing, `TemplateEngine`, `TextFileNode` and `EmptyNode` are not part of this model.
