# ti-lang parser, modelled in Dafny

This project models the recursive-descent parser of the ti language
(`src/frontend/parser/parser.rs`). The parser reads a stream of token kinds.
In that stream the lexer marks the start of every line with an indentation
token `IdentTier(n)`. The parser builds:

- a program tree of function nodes;
- an append-only table of function signatures, whose argument and return types
  sit in a map keyed by fresh symbols `$1`, `$2`, ….

The model has two layers:

- **Reference grammars.** `ExprGrammar` covers expressions and types. `DefGrammar`
  covers definitions, statements, blocks and the program. Both are pure functions
  over the tokens and a position, or over a `PState`. A `PState` holds the cursor,
  the symbol counter and the function table: the three things the parser object
  changes.
- **The parser object.** `Parsing.Parser` is a class with the fields the source
  updates: the cursor of its `TokenStream`, `symId`, `fnDefs` and `ast`. Each
  method mirrors one function of `parser.rs` and keeps its loops. Each method's
  `ensures` says it computes exactly what the matching reference function computes:
  the value or the first error, plus the cursor, counter and table afterwards.

The properties of the parser are proved as lemmas about the reference functions.
They cover:

- the symbols drawn, and the table entry a definition appends;
- precedence and left association;
- the type table;
- scope bounds;
- what the statement, block and program loops keep.

`Printer` is a token printer for expressions and types. It is not part of the
source. It acts as the inverse of the two grammars: printing any well-formed tree
and parsing it back gives the tree again. `Examples` parses concrete token
streams.

Where the source stops the process (`panic!`, `todo!`, `build_ti_error!`, which
prints and exits), the model returns an error instead. There are four kinds:

- `Syntax(pos)`: an unexpected token;
- `Unterminated(pos)`: the end of input inside an argument list;
- `Unsupported(pos)`: `todo!`;
- `OutOfRange(pos)`: `unwrap` of a read past the end.

A `Syntax` error carries the index of the token the source's diagnostic reports
(the `peek` or `last` token it prints). The other three failures report no index
in the source, so the model picks one:

- `Unsupported(p)`: the `todo!` for `<` after `fn` (line 95) and for the other
  definition keywords (lines 162-175) is placed at the index of that `<` or keyword;
- `Unterminated(q + 1)`: the end-of-input panic inside the argument list (line 128)
  is placed at the index of the `Eof` reached after the skipped separator;
- `OutOfRange(|toks|)`: the failing `at(idx).unwrap()` in `find_scope` (line 264)
  is placed at the first index past the input.

Every caller passes the error on unchanged.

The token stream is not part of this model's source, so its contract was chosen to
fit how `parser.rs` uses it:

- reading past the end gives `Eof`;
- `next` and `forward` always advance by one;
- `assert_next(k)` and `assert_next_tier(n)` consume the current token exactly when
  it is `k` or `IdentTier(n)`.

With that contract, the two-step rollback in `parse_definion` followed by the
`forward` in `parse_stmt` lands on the token right after the tier marker.

## Model

| member | source | states |
|---|---|---|
| Parsing.Parser.constructor | src/frontend/parser/parser.rs:20-31 | a new parser keeps the given stream and its cursor as they are, with the counter at 0, an empty function table and an `Empty` tree |
| Parsing.Parser.Parse | src/frontend/parser/parser.rs:35-51 | the top-level loop succeeds exactly when the reference program loop does; the tree becomes `Program` of the nodes it keeps, counter, table and cursor are those it ends with, and an error is the loop's first |
| Parsing.Parser.SymName | src/frontend/parser/parser.rs:53-56 | the counter goes up by exactly one and the name returned is `$` followed by the new counter value in decimal |
| Parsing.Parser.ParseDefinition | src/frontend/parser/parser.rs:58-85 | dispatch on the token after the tier marker agrees with `DefGrammar.DefinitionAt` in value, cursor, counter and table |
| Parsing.Parser.ParseFnDefinition | src/frontend/parser/parser.rs:87-105 | the name, `<` and `(` checks of a function definition agree with `DefGrammar.FnDefinitionAt` |
| Parsing.Parser.ParseFnSignature | src/frontend/parser/parser.rs:106-159 | arguments, return type, the new table entry and the body agree with `DefGrammar.FnSignatureAt` |
| Parsing.Parser.ParseFnArgs | src/frontend/parser/parser.rs:106-130 | the argument loop agrees with `DefGrammar.FnArgsAt` from an empty signature, and draws exactly one symbol per argument |
| Parsing.Parser.ParseFnArgsRound | src/frontend/parser/parser.rs:107-129 | one round of the argument loop either ends it with the reference result, or moves strictly forward to a point from which the rest of the loop gives the same result; the counter stays one per argument recorded |
| Parsing.Parser.ParseFnArg | src/frontend/parser/parser.rs:110-121 | `name : type`, or an error at the offending token, as `DefGrammar.FnArgAt` gives it |
| Parsing.Parser.ParseReturnType | src/frontend/parser/parser.rs:132-136 | `-> type`, or `()` without consuming anything, as `DefGrammar.ReturnTypeAt` gives it |
| Parsing.Parser.ParseFnBody | src/frontend/parser/parser.rs:147-159 | the body after `=` (a block after a deeper tier marker, otherwise one expression) agrees with `DefGrammar.FnBodyAt` |
| Parsing.Parser.FindScope | src/frontend/parser/parser.rs:261-273 | the scan leaves the parser unchanged and returns exactly `DefGrammar.FindScopeAt` of the cursor |
| Parsing.Parser.ParseBlock | src/frontend/parser/parser.rs:275-287 | scope resolution, the step back and the statement loop agree with `DefGrammar.BlockAt` |
| Parsing.Parser.ParseStmt | src/frontend/parser/parser.rs:289-302 | one statement agrees with `DefGrammar.StmtAt` |
| Parsing.Parser.ParseExpr | src/frontend/parser/parser.rs:178-180 | agrees with `ExprGrammar.ExprAt` in value or error and in the cursor afterwards |
| Parsing.Parser.ParseExprPrimary | src/frontend/parser/parser.rs:182-199 | agrees with `ExprGrammar.PrimaryAt` |
| Parsing.Parser.ParseExprAdd | src/frontend/parser/parser.rs:201-220 | the `+`/`-` folding loop agrees with `ExprGrammar.AddAt` |
| Parsing.Parser.ParseExprMul | src/frontend/parser/parser.rs:222-241 | the `*`/`/` folding loop agrees with `ExprGrammar.MulAt` |
| Parsing.Parser.ParseExprCall | src/frontend/parser/parser.rs:243-259 | a primary, then an argument loop after `(`, agrees with `ExprGrammar.CallAt` |
| Parsing.Parser.ParseType | src/frontend/parser/parser.rs:304-306 | agrees with `ExprGrammar.TypeAt` |
| Parsing.Parser.ParseTypeAnna | src/frontend/parser/parser.rs:308-316 | a primary type, wrapped as `Anna(t, [])` when `<` follows, agrees with `ExprGrammar.TypeAt` |
| Parsing.Parser.ParseTypePrimary | src/frontend/parser/parser.rs:318-357 | a named or parenthesised type, or an error at any other token, agrees with `ExprGrammar.TypePrimaryAt` |
| Token.TokenStream.AssertNextTier | src/frontend/parser/parser.rs:38 | consumes the current token exactly when it is the tier marker asked for, and says whether it did |
| ExprGrammar.ExprAt | src/frontend/parser/parser.rs:178-180 | a parsed expression consumes at least one token and ends inside the input |
| ExprGrammar.ArgsAt | src/frontend/parser/parser.rs:247-254 | the call argument loop yields at least one argument more than it started with, keeping the earlier ones as a prefix |
| ExprGrammar.UnitAt | src/frontend/parser/parser.rs:341-352 | a tuple type holds at least one element more than it started with, keeping the earlier ones as a prefix |
| ExprGrammar.PrimitiveName | src/frontend/parser/parser.rs:322-335 | each of the thirteen primitive types has a name in the table that maps back to it |
| ExprGrammar.PrimitiveKnown | src/frontend/parser/parser.rs:322-335 | every name in the table maps to a primitive type whose table name is that name again |
| ExprGrammar.PrimitiveUnknown | src/frontend/parser/parser.rs:336-338 | every other identifier maps to `Unknown` |
| ExprGrammar.PrimitiveTable | src/frontend/parser/parser.rs:322-339 | a name gives a type other than `Unknown` iff it is one of the thirteen, and then the type's name is that name |
| Symbols.StringToNatOfNatToString | src/frontend/parser/parser.rs:55 | the decimal rendering of the counter reads back to the same number |
| Symbols.SymIndexOfSymbolName | src/frontend/parser/parser.rs:55 | the counter value can be recovered from a symbol name |
| Symbols.SymbolNameInjective | src/frontend/parser/parser.rs:53-56 | two symbol names are equal iff the counter values are, so names drawn from one parser are pairwise distinct |
| DefGrammar.SymSetHas | src/frontend/parser/parser.rs:53-56 | each of the `n` names drawn after counter `base` is among them |
| DefGrammar.SymSetFresh | src/frontend/parser/parser.rs:53-56 | a name drawn later is never among those drawn before |
| DefGrammar.SymSetCard | src/frontend/parser/parser.rs:53-56 | drawing `n` names gives `n` distinct names |
| DefGrammar.KeyedStep | src/frontend/parser/parser.rs:115-118 | recording one more argument under the next symbol keeps the keys exactly the symbols drawn |
| DefGrammar.KeyedToWellFormed | src/frontend/parser/parser.rs:137-145 | adding the return symbol after the arguments gives an entry of the well-formed shape |
| DefGrammar.WellFormedDefTyped | src/frontend/parser/parser.rs:106-145 | a well-formed entry has exactly one key more than it has arguments; every argument symbol and the return symbol are keys; all of them are pairwise distinct |
| DefGrammar.FnArgsAtPrefix | src/frontend/parser/parser.rs:106-130 | the argument loop keeps the arguments it started with as a prefix |
| DefGrammar.BindsStep | src/frontend/parser/parser.rs:115-118 | recording one more argument keeps the signature in step with the plain `(name, type)` list |
| DefGrammar.FnArgsAtBinds | src/frontend/parser/parser.rs:106-130 | the argument loop and the plain `(name, type)` reading of the same tokens succeed together, stop at the same index or fail with the same error; each argument has the name read, in order, and a fresh symbol mapped to its type |
| DefGrammar.FnEntryBinds | src/frontend/parser/parser.rs:137-145 | the entry keeps name and arguments, maps each argument symbol to its type and the return symbol to the return type |
| DefGrammar.ReturnTypeAt | src/frontend/parser/parser.rs:132-136 | without `->` the return type is `()` and nothing is consumed |
| DefGrammar.FnDefinitionAt | src/frontend/parser/parser.rs:87-105 | a definition that parses moves the cursor forward, only raises the counter and only appends to the table |
| DefGrammar.FnDefinitionAtCases | src/frontend/parser/parser.rs:92-105 | `<` after `fn` is unsupported; a non-name, or a name without `(`, is a syntax error at the token after the name position; a node produced is a function node named by the identifier |
| DefGrammar.FnSignatureAt | src/frontend/parser/parser.rs:106-159 | the signature part only moves forward, raises the counter and appends to the table |
| DefGrammar.FnDefinitionEntry | src/frontend/parser/parser.rs:137-145 | a successful definition appends its own global entry first, named by the identifier after `fn` and of the well-formed shape; a definition without body appends exactly that entry and draws exactly one symbol per argument plus one |
| DefGrammar.FnDefinitionExpressionEntry | src/frontend/parser/parser.rs:132-156 | a function whose body is `= expr` on the same line succeeds iff that expression parses, and then appends exactly its own entry and draws exactly one symbol per argument plus one |
| DefGrammar.FnDefinitionTypes | src/frontend/parser/parser.rs:106-145 | the new entry lists the declared arguments in order, each argument symbol maps to the type read for it, the return symbol maps to the type after `->`, and to `()` without `->` |
| DefGrammar.FnBodyAt | src/frontend/parser/parser.rs:147-159 | a node comes back iff `=` follows; without `=` nothing changes; the node is a function node with the definition's name |
| DefGrammar.FnBodyExpression | src/frontend/parser/parser.rs:151-156 | a body that is not a deeper block is a one-element block holding exactly the expression parsed, or its error |
| DefGrammar.DedentFrom | src/frontend/parser/parser.rs:263-271 | the first index at or after the start holding a marker of a lower tier, or none if there is no such index |
| DefGrammar.FindScopeAt | src/frontend/parser/parser.rs:261-273 | the scope is `Block(curr, end)` with `curr <= end`; `end` is the first lower-tier marker at or after `curr`, or `curr` at the end of input; it fails, reading past the end, iff no such marker exists |
| DefGrammar.DefinitionAt | src/frontend/parser/parser.rs:58-85 | no node iff the token is no definition keyword, and then the cursor ends one before that token; the other keywords are unsupported; a definition moves forward and only grows the counter and table |
| DefGrammar.StmtAt | src/frontend/parser/parser.rs:289-302 | a statement iff the tier marker matches; a mismatched marker is consumed and ends the block |
| DefGrammar.StmtAtExpression | src/frontend/parser/parser.rs:289-297 | after a matching marker and a token that starts no definition, the statement is exactly the expression from the token after the marker |
| DefGrammar.StmtAtDeclaration | src/frontend/parser/parser.rs:290-292 | a definition that yields no node stands in the block as `Empty` |
| DefGrammar.BlockLoop | src/frontend/parser/parser.rs:279-285 | the statements are appended in order after those already collected, and the counter and table only grow |
| DefGrammar.BlockAt | src/frontend/parser/parser.rs:275-287 | a block ends no earlier than the step back onto its marker, and only grows the counter and table |
| DefGrammar.ProgramLoop | src/frontend/parser/parser.rs:37-49 | the top-level loop keeps the nodes collected as a prefix, only grows the state, and ends at the end of input |
| DefGrammar.ProgramLoopFunctions | src/frontend/parser/parser.rs:40-48 | only function nodes are ever collected into the program |
| DefGrammar.ParseAt | src/frontend/parser/parser.rs:35-51 | a successful parse gives a `Program` and ends at the end of input |
| DefGrammar.ParseAtFunctions | src/frontend/parser/parser.rs:35-51 | every node of a parsed program is a function node |
| Printer.ExprRoundTrip | src/frontend/parser/parser.rs:178-259 | the printed tokens of a well-formed expression, followed by a token that continues no level, parse back to that expression and stop at its end |
| Printer.MulRoundTrip | src/frontend/parser/parser.rs:222-241 | the same for the multiplicative level |
| Printer.CallRoundTrip | src/frontend/parser/parser.rs:243-259 | the same for a call or a primary |
| Printer.PrimaryRoundTrip | src/frontend/parser/parser.rs:182-199 | the same for a primary, including a parenthesised expression |
| Printer.ArgsRoundTrip | src/frontend/parser/parser.rs:247-254 | printed call arguments parse back to those arguments, in order, after the ones already collected |
| Printer.ParsePrintedExpr | src/frontend/parser/parser.rs:178-259 | the whole printed form of a well-formed expression parses back to it |
| Printer.TypeRoundTrip | src/frontend/parser/parser.rs:304-316 | the printed tokens of a well-formed type, not followed by `<`, parse back to that type |
| Printer.TypePrimaryRoundTrip | src/frontend/parser/parser.rs:318-357 | the same for a named or parenthesised type |
| Printer.UnitRoundTrip | src/frontend/parser/parser.rs:341-352 | printed tuple elements parse back to a `Unit` of those elements, in order, after the ones already collected |
| Printer.ParsePrintedType | src/frontend/parser/parser.rs:304-357 | the whole printed form of a well-formed type parses back to it |
| Examples.Precedence | src/frontend/parser/parser.rs:201-241 | `2 + 3 * 4` gives `Add(2, Mul(3, 4))` |
| Examples.LeftAssociative | src/frontend/parser/parser.rs:201-220 | `a - b - c` gives `Sub(Sub(a, b), c)` |
| Examples.Parenthesised | src/frontend/parser/parser.rs:188-194 | `(2 + 3) * 4` gives `Mul(Add(2, 3), 4)` |
| Examples.Call | src/frontend/parser/parser.rs:243-259 | `f(1, 2, 3)` gives a call with the three arguments in order |
| Examples.UncheckedSeparator | src/frontend/parser/parser.rs:247-254 | `f(1 x 2)` gives `f(1, 2)`: the token after an argument is skipped whatever it is |
| Examples.UnclosedCall | src/frontend/parser/parser.rs:247-254 | `f(1` skips the end of input as a separator and fails at the expression after it |
| Examples.TupleType | src/frontend/parser/parser.rs:308-352 | `(i32, bool<)` gives `Unit([I32, Anna(Bool, [])])` |
| Examples.UnknownType | src/frontend/parser/parser.rs:336-338 | `str` gives `Unknown` |
| Examples.Scopes | src/frontend/parser/parser.rs:261-273 | a tier-1 scope ends at the tier-0 marker and not at a nested tier-2 one; without a marker the scan fails unless the cursor is at the end |
| Examples.Declaration | src/frontend/parser/parser.rs:106-158 | `fn f(x: i32) -> bool` adds no node and one entry with `$1` mapped to `i32` for `x` and `$2` mapped to `bool` for the return type |
| Examples.ExpressionBody | src/frontend/parser/parser.rs:147-156 | `fn f() = 1 + 2` gives `Fn(f, [Expr(1 + 2)])` and an entry whose return symbol maps to `()` |
| Examples.BlockThenDefinition | src/frontend/parser/parser.rs:275-302 | a function with a block body, then a second top-level function, is rejected: the block's last statement consumes the tier-0 marker the second function needs |

## Left out

- Enum, struct, trait and impl definitions (lines 162-176) and explicit generic parameters (lines 93-96) are `todo!` in the source. They are modelled only as the `Unsupported` error.
- The `struct_def`, `enum_def`, `trait_def` and `var_def` tables are never written by this code. They are not fields of the model.
- `Rc`, lifetimes and `HashMap` hashing are left out. The type map is a Dafny `map<string, Type>`, whose key set is what the lemmas speak about.
- `f32` and `f64` are type tags only. The payload of a number literal is an unbounded `int`, because no arithmetic is done on it here.
- `symId` is unbounded. The source's `usize` counter would wrap only after 2^64 symbols, far beyond any token stream.
- Diagnostics printing and process exit (`src/error/macros.rs`) are not modelled. Every `panic!`, `todo!` and `build_ti_error!` is an error result instead: `Syntax` at the index its diagnostic reports, and the chosen indices above where the source reports none.
- The lexer and the token type's module are not part of this model. `Token.TokenStream` is the minimal cursor that `parser.rs` relies on, and `Token.TokenStream.AssertNextTier` is a chosen contract: it consumes the token only on an exact tier match.
- The scope value `find_scope` computes is passed to `parse_stmt` and `parse_definion` but never read. The model computes it, and returns its out-of-range failure, but drops the value.
- Parsing.Parser.ParseDefinition: requires the cursor to be at least 1. This always holds in the source, because every call comes right after a tier marker was consumed, and the two-step rollback needs it.
- Parsing.Parser.ParseBlock: requires the cursor to be within 1 and the input length. This always holds in the source, because a block starts right after a consumed tier marker that is not the last token.
- Parsing.Parser.ParseFnSignature, Parsing.Parser.ParseFnArgsRound, Parsing.Parser.ParseFnArg, Parsing.Parser.ParseReturnType and Parsing.Parser.ParseFnBody: split `parse_fn_definion` into parts. Together they perform its steps in the same order.
- Termination of the block and program loops rests on every round moving the cursor forward. It is proved over the tokens remaining, with no fuel.
- The commented-out debug code at lines 46-47 and 126 is not modelled.
- `Printer` and `Examples` are not part of the source. They exist to state and illustrate round trips and concrete outcomes.
