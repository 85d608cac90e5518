# orion parser, modelled in Dafny

This project models the recursive-descent parser of orion, a small Lisp-like
language written in Rust (`src/parser.rs`). The parser takes the token vector
produced by the lexer. That vector ends in a sentinel token the parser never
consumes. The parser turns the tokens into a list of `Expr` trees, or stops at
the first diagnostic, which carries a line and column.

The project has seven modules:

- `Tokens` (`tokens.dfy`): the token kinds `TType`, their discriminants
  `Kind`, and the `Token` record. `WellFormed` states the one thing the parser
  relies on from the lexer: identifiers are not empty.
- `Ast` (`ast.dfy`): the `Expr` enum. `FoldCalls` is the left fold that builds
  curried calls and `FoldLambdas` the right fold that builds curried lambdas.
- `Grammar` (`grammar.dfy`): the parser as pure functions of the token
  sequence and a cursor. Each function returns its result together with the
  cursor it leaves behind, on success and on failure alike (`Step`, and `Run`
  for `parse`, which also carries the output list).
- `Parsing` (`parser.dfy`): the `Parser` class, with the fields `input`,
  `output` and `current`, and its methods with their `while` loops. Every
  method's postcondition equates its result and new cursor (and output) with
  the `Grammar` function of the same operation. Everything proved about those
  functions therefore holds of the methods.
- `Properties` (`properties.dfy`): what the parser promises, proved about the
  `Grammar` functions.
- `Printer` (`printer.dfy`): a printer from expressions to tokens that is
  independent of the parser, and the round trip. Parsing the printed tokens
  of a printable expression gives that expression back and stops just after
  its tokens. Parsing a printed program gives back its list.
- `Produced` (`parsed.dfy`): every expression the parser yields is
  printable, so the round trip covers all of the parser's results.

## Model

| member | source | states |
|---|---|---|
| Parsing.Parser.constructor | src/parser.rs:29-35 | `new` stores the tokens, starts with an empty output and the cursor at 0 |
| Parsing.Parser.Peek | src/parser.rs:63-68 | the token under the cursor exists exactly when the cursor is inside the input, and is `input[current]` |
| Parsing.Parser.IsAtEnd | src/parser.rs:69-71 | at the end iff at most the sentinel is left; when not at the end a token can be peeked |
| Parsing.Parser.Pop | src/parser.rs:51-62 | with the cursor inside the input it stays there. When at most one token is left, `pop` fails at the line and column of `input[current]` and leaves the cursor alone. Otherwise it returns `input[current]` and moves the cursor by exactly one |
| Parsing.Parser.Advance | src/parser.rs:36-50 | succeeds iff a token can be popped and its kind equals the template's kind, and then returns that token. On a kind mismatch the token is already consumed and the error is at its position, naming both kinds |
| Parsing.Parser.AdvanceMany | src/parser.rs:72-82 | the loop produces what `Grammar.AdvanceMany` describes: never an error, the longest run of tokens of the expected kind, in order |
| Parsing.Parser.ParseExpr | src/parser.rs:83-207 | result and new cursor are those of `Grammar.ParseExpr` |
| Parsing.Parser.ParseParen | src/parser.rs:91-198 | the dispatch after `(` gives the result and cursor of `Grammar.Paren` |
| Parsing.Parser.CloseUnlessAtEnd | src/parser.rs:106-108 | the optional closing `)` gives the result and cursor of `Grammar.CloseUnlessAtEnd` |
| Parsing.Parser.ParseDef | src/parser.rs:96-111 | the `def` arm gives the result and cursor of `Grammar.DefForm` |
| Parsing.Parser.ParseEnum | src/parser.rs:112-159 | the `enum` arm and its variant loop give the result and cursor of `Grammar.EnumForm`; the loop keeps `Grammar.Variants` of its state equal to that of its start |
| Parsing.Parser.ParseVariant | src/parser.rs:130-150 | the body of the variant loop gives the result and cursor of `Grammar.Variant` |
| Parsing.Parser.ParseLambda | src/parser.rs:160-180 | the `lambda` arm gives the result and cursor of `Grammar.LambdaForm` |
| Parsing.WrapLambdas | src/parser.rs:173-175 | the reversed loop over the parameters builds `FoldLambdas(params, body)`, the last parameter innermost |
| Parsing.Parser.ParseCall | src/parser.rs:181-194 | the argument loop and the fold give the result and cursor of `Grammar.CallForm` |
| Parsing.Parser.Parse | src/parser.rs:209-216 | result, cursor and output list are those of `Grammar.ParseAll` from the old cursor and output |
| Tokens.KindOfIgnoresPayload | src/parser.rs:39 | `KindOf`, the discriminant the kind comparison uses, is equal for two token kinds iff they are the same variant, whatever their payloads |
| Grammar.Pop | src/parser.rs:51-62 | the cursor moves by one on success and stays put on failure, never anything else |
| Grammar.Advance | src/parser.rs:36-50 | succeeds iff not at the end and the token's kind equals the template's, and then returns `input[pos]`. The cursor moves past the token whenever one was popped, on a kind mismatch too |
| Grammar.CloseUnlessAtEnd | src/parser.rs:106-108 | succeeds iff at the end or at a `)`; consumes one token unless at the end |
| Grammar.StartsCapital | src/parser.rs:121 | the capital check of enum names, and of variant names (line 141): every name starting with an ASCII capital passes and every name starting with an ASCII lower-case letter fails |
| Grammar.ToU8 | src/parser.rs:145 | a count below 256 is kept, and the byte always differs from the count by a multiple of 256 |
| Grammar.Names | src/parser.rs:165-169 | the names are those of the identifier tokens, one per token, in order |
| Grammar.Paren | src/parser.rs:91-198 | the cursor moves forward and stays inside the input; a success contains no `Boolean` node |
| Grammar.DefForm | src/parser.rs:96-111 | the cursor moves forward and stays inside the input; a success contains no `Boolean` node |
| Grammar.LambdaForm | src/parser.rs:160-180 | the cursor moves forward and stays inside the input; a success contains no `Boolean` node |
| Grammar.Parameters | src/parser.rs:161-169 | a parameter list that is read consumed at least its two parentheses, and every parameter name is non-empty |
| Grammar.CallForm | src/parser.rs:181-194 | the cursor stays inside the input; a success contains no `Boolean` node |
| Grammar.Variant | src/parser.rs:130-150 | a variant that is read consumed tokens, and its name is non-empty and passes the capital check |
| Grammar.AdvanceMany | src/parser.rs:72-82 | never fails. It returns the accumulated tokens followed by `input[pos..at]`, all of the expected kind. It stops at the end or at a token of another kind |
| Grammar.Finish | src/parser.rs:106-110 | a form's result is the expression it built, or an error, and the cursor stays inside the input |
| Grammar.ParseExpr | src/parser.rs:83-207 | the cursor moves forward and stays inside the input. A success consumed at least one token and contains no `Boolean` node |
| Grammar.EnumForm | src/parser.rs:112-159 | a success is an `Enum` with as many arities as variant names |
| Grammar.Variants | src/parser.rs:128-151 | names and arities grow by the same count and the loop stops only at the end or at `)` |
| Grammar.CallArgs | src/parser.rs:184-186 | the argument loop never returns fewer arguments than it was given (`Properties.CallArgsInOrder` states which), never builds `Boolean`, and stops only at the end or at `)` |
| Grammar.ParseAll | src/parser.rs:209-216 | on success the returned list is the output list and the cursor is at the end |
| Ast.FoldCalls | src/parser.rs:192 | the folded call is free of `Boolean` nodes iff the head and every argument are |
| Ast.FoldLambdas | src/parser.rs:173-175 | wrapping in lambdas neither adds nor removes `Boolean` nodes |
| Properties.AdvanceComparesKinds | src/parser.rs:36-50 | two templates of the same kind behave identically, and `Ident("")` accepts any identifier |
| Properties.AdvanceMismatchConsumes | src/parser.rs:36-50 | a mismatch consumes the token and reports its position and both kinds |
| Properties.AdvanceManyStopsAt | src/parser.rs:72-82 | over a run of the expected kind ending at `stop`, `advance_many` returns exactly `input[pos..stop]` and leaves the cursor at `stop` |
| Properties.RootDispatch | src/parser.rs:84-90 | for each kind of root token: the literal or variable with the same payload; `(` continues into the parenthesised forms; `)` fails with an unexpected closing parenthesis; a keyword or other token fails with an unexpected keyword. All failures are at the root; at the end the error is an unfinished expression |
| Properties.ParenDispatch | src/parser.rs:94-196 | after `(` the second token selects `(`, `def`, `enum`, `lambda`, call or `()` as `Unit`. Any other token fails at its own position with its kind |
| Properties.DoubleOpen | src/parser.rs:95 | `((` parses the expression starting after the second `(` and returns it as it is, consuming no `)` |
| Properties.FoldCallsSpine | src/parser.rs:192 | folding n arguments onto a non-call head gives that head and exactly those arguments in order along the spine |
| Properties.CallArgsInOrder | src/parser.rs:184-186 | the argument loop keeps the earlier arguments and appends expressions parsed one after the other |
| Properties.CallFormShape | src/parser.rs:181-194 | a call yields a spine headed by `Var f` whose arguments are the expressions parsed in order. The closing `)` is consumed unless the input ended |
| Properties.CallWithoutArguments | src/parser.rs:181-194 | `(f)` yields `Var f` and consumes its three tokens |
| Properties.UnfoldFoldLambdas | src/parser.rs:173-175 | the k parameters can be read back off the folded lambda, leftmost outermost, with the body left; with no parameter the result is the body itself |
| Properties.LambdaFormShape | src/parser.rs:160-180 | a successful lambda is the body wrapped in one `Lambda` per name in the parameter run, and the `)` after the parameters was present |
| Properties.ParametersShape | src/parser.rs:161-169 | a parameter list that is read is `(`, a run of identifiers and `)`, and yields the names of the run |
| Properties.LambdaNeedsClosedParameters | src/parser.rs:161-163 | any token other than `)` after the parameter list fails the lambda at that token |
| Properties.VariantStep | src/parser.rs:128-151 | one variant with k fields appends its name and `k mod 256` to the two lists, in declaration order |
| Properties.VariantsUnfold | src/parser.rs:128-151 | unfolding step: where a variant can be read, the variant loop reads it and goes on after it |
| Properties.VariantRead | src/parser.rs:130-150 | one variant `(Name f1 … fk)` yields its name and `k mod 256`, and the cursor ends just after its `)` |
| Properties.VariantNameChecked | src/parser.rs:141-143 | a variant name not starting with a capital fails at the name token |
| Properties.EnumNameChecked | src/parser.rs:121-123 | a type name not starting with a capital fails at the name token before any variant is read |
| Properties.CapitalCheckTruncates | src/parser.rs:121 | the capital check looks at the low byte of the first code point: `Łist` passes, `list` fails, `List` passes |
| Properties.FinishClosed | src/parser.rs:106-108 | the closing `)` is taken only when not at the end; a form ended by the end of input succeeds; any other token there fails at that token |
| Properties.EnumClosesCleanly | src/parser.rs:153-155 | the closing advance after the variant loop never fails: an enum with a capitalised name whose variants are read succeeds |
| Properties.CallClosesCleanly | src/parser.rs:188-190 | the closing advance after the argument loop never fails: a call whose arguments are read succeeds |
| Properties.DefFormResult | src/parser.rs:96-111 | unfolding step: `def n v` binds `n` to the next expression, then closes |
| Properties.LambdaFormResult | src/parser.rs:160-180 | `lambda (p1 … pk) b` is `FoldLambdas([p1, …, pk], b)`, then closes |
| Properties.LambdaParameters | src/parser.rs:161-169 | the parameter list `(p1 … pk)` yields the k names in order, and the cursor ends just after its `)` |
| Properties.EnumFormResult | src/parser.rs:112-159 | unfolding step: with a capitalised type name, the enum is the names and arities the variant loop collected, then closes |
| Properties.CallFormResult | src/parser.rs:181-194 | unfolding step: a call is `FoldCalls(Var f, args)` of the arguments the loop collected, then closes |
| Properties.DefAt | src/parser.rs:84-111 | `(def n v …` parsed from its `(` |
| Properties.LambdaAt | src/parser.rs:84-180 | `(lambda (p) b …` parsed from its `(` is `Lambda(p, b)` |
| Properties.EnumAt | src/parser.rs:84-159 | `(enum N …` parsed from its `(` |
| Properties.CallAt | src/parser.rs:84-194 | `(f args …` parsed from its `(` |
| Properties.CallArgsStep | src/parser.rs:184-186 | unfolding step: one iteration of the argument loop appends the parsed argument |
| Properties.ParseAllStep | src/parser.rs:210-213 | unfolding step: one iteration of `parse` pushes the parsed expression |
| Properties.ParseAllInOrder | src/parser.rs:209-216 | `parse` keeps the earlier output and appends the expressions parsed one after the other. On an error it stops, and the error and cursor are those of the expression after the ones pushed |
| Properties.ParseAllBooleanFree | src/parser.rs:209-216 | `parse` never builds `Expr::Boolean` |
| Printer.RoundTrip | src/parser.rs:83-207 | parsing the printed tokens of any printable expression gives it back and stops just after them |
| Printer.DefRoundTrip | src/parser.rs:96-111 | the round trip for `def` |
| Printer.LambdaRoundTrip | src/parser.rs:160-180 | the round trip for a lambda |
| Printer.LambdaClose | src/parser.rs:160-180 | a printed lambda whose body is read back is read back whole, with its closing `)` |
| Printer.EnumRoundTrip | src/parser.rs:112-159 | the round trip for an enum declaration |
| Printer.VariantsRoundTrip | src/parser.rs:128-151 | the variant loop reads printed variants back with their names and arities in declaration order, and stops at the `)` after them |
| Printer.VariantsRead | src/parser.rs:125-151 | printed variants followed by `)` are read back exactly by the variant loop started with empty lists |
| Printer.VariantsLaidOut | src/parser.rs:128-151 | printed variants lie in the input one after the other, each as `(`, its capitalised name, its fields and `)` |
| Printer.VariantsHead | src/parser.rs:128-151 | the variant loop reads the first printed variant back and goes on just after it |
| Printer.CallRoundTrip | src/parser.rs:181-194 | the round trip for a call chain |
| Printer.ArgsRoundTrip | src/parser.rs:184-186 | the argument loop reads the printed arguments back in order |
| Printer.ArgRoundTrip | src/parser.rs:185 | one printed argument is read back and appended |
| Printer.ChainIsFolded | src/parser.rs:192 | a call chain is the left fold of its arguments onto its head variable |
| Printer.ProgramRoundTrip | src/parser.rs:209-216 | `parse` on a printed program followed by the sentinel returns its expressions in order and stops at the sentinel |
| Printer.ProgramHead | src/parser.rs:210-213 | `parse` reads the first printed expression, then the rest |
| Printer.ProgramEnd | src/parser.rs:209-216 | at the sentinel `parse` returns what was pushed |
| Produced.ParsedPrintable | src/parser.rs:83-207 | every expression `parse_expr` yields is printable, so `Printer.RoundTrip` covers all of them |
| Produced.ParenPrintable | src/parser.rs:91-198 | every expression the dispatch after `(` yields is printable |
| Produced.DefPrintable | src/parser.rs:96-111 | every `def` the parser yields is printable |
| Produced.EnumPrintable | src/parser.rs:112-159 | every enum declaration the parser yields is printable: equal list lengths, capitalised variant names |
| Produced.VariantsCapital | src/parser.rs:128-151 | the variant loop adds only names that pass the capital check |
| Produced.LambdaPrintable | src/parser.rs:160-180 | every lambda the parser yields is printable |
| Produced.FoldLambdasPrintable | src/parser.rs:173-175 | wrapping a printable body in lambdas with non-empty names stays printable |
| Produced.CallPrintable | src/parser.rs:181-194 | every call the parser yields is printable |
| Produced.CallArgsPrintable | src/parser.rs:184-186 | the argument loop adds only printable arguments |
| Produced.FoldCallsPrintable | src/parser.rs:192 | folding printable arguments onto a variable gives a printable call chain |
| Produced.Reparsed | src/parser.rs:83-207 | whatever `parse_expr` yields, printed and parsed anywhere else, is read back the same and consumes exactly the printed tokens |

## Behaviour of the code worth knowing

- After `((` the code parses what follows the second `(` as a whole new
  expression and returns it without consuming any `)`
  (src/parser.rs:95, `Properties.DoubleOpen`). So `((X))` leaves two `)`
  behind, and the top-level loop then fails at the first of them with an
  unexpected closing parenthesis. `((lambda …) …)` fails with an
  unexpected keyword, because `lambda` becomes a root token.
- The closing advances after the variant loop and after the argument loop
  (src/parser.rs:153-155, 188-190) can never fail: both loops stop only at
  the end of input or at a `)` (`Properties.EnumClosesCleanly`,
  `Properties.CallClosesCleanly`).
- When `pop` fails it reports the position of the token under the cursor,
  `input[current]` (src/parser.rs:53), which is then the sentinel, the last
  token.

## Left out

- The lexer, which produces the tokens: only the token shape is modelled.
  `WellFormed` stands for its guarantee that identifiers are not empty.
  Without that guarantee the `unwrap` of the first character of an enum name
  (src/parser.rs:121, 141) panics.
- `src/builtins/io.rs` (console and file output), the evaluator, and the
  internals of `OrionError` and the `error!`/`bug!` macros.
- The diagnostic text: an error is its line, column and a message tag. Kind
  names are abstract `Kind` values.
- `f32` semantics: a float literal's payload is an uninterpreted type,
  because the parser only copies it.
- The `bug!` branches (src/parser.rs:101, 118, 137, 168): the kind has
  already been checked, so the model reads the identifier's payload directly.
- Parsing.Parser.Pop: requires the cursor to be inside the input. The source
  indexes `input[current]` on its error path and panics on an empty vector.
  `Parse` does not call `pop` when the input is empty.
- `parse_expr` is one function in the source. The model splits its `(` arm
  into one method per form. The body of the variant loop is the separate
  method `Parsing.Parser.ParseVariant` (`Grammar.Variant`), the lambda's
  parameter list the function `Grammar.Parameters`, and the lambda's
  wrapping loop the method `Parsing.WrapLambdas`.
- The printer writes every lambda with one parameter and every variant field
  as the identifier `x`. The round trip covers multi-parameter lambdas through
  their curried form rather than through their original text.
