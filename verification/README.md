# A verified model of a nanopass compiler for a small integer language

The language has integers, `(read)`, `(- e)`, `(+ e e)`, variables and
`(let ([x e]+) e)`. The compiler takes a program through these passes:

1. A character-level **lexer** turns the text into tokens with line and column.
2. A recursive-descent **parser** turns the tokens into an abstract syntax tree.
3. **uniquify** renames every `let` binder `x` to `x.d`, where `d` is its scope depth.
4. **Partial evaluation** folds `+` and `-` over literals and over names bound to literals.
5. **decomplify** (remove complex operands) makes every operand of `+` and `-` an atom, introducing `tmp.N` bindings.
6. **explicate-control** flattens nested `let`s into `Seq`/`Return` tails of an intermediate language (IR) under the label `.l1`.
7. The **x64 back end**:
   - selects instructions;
   - gives every variable an 8-byte stack slot below `rbp`;
   - routes memory-to-memory instructions through `r15`;
   - wraps the entry block in a prologue and epilogue.
8. A **printer** emits NASM text.

Two reference **interpreters**, one over the tree and one over the IR, record
the values `read` returns in a cache and can replay them in FIFO order.

Each pass is modelled in the form of its source. Where the pass has a defect listed under "## Findings", the model holds both versions:
- a `…AsWritten` function (or a rule inside one) models the code as written, and a lemma exhibits the defect on a concrete input;
- the class, its methods and the specification function they are proved against follow the corrected pass, and the proved properties are about that version.

The parts of the model are these.
- **Objects whose fields are updated in place** are Dafny classes, with `modifies` clauses on their methods:
  - the lexer's cursor;
  - the parser's position, error list and success flag;
  - uniquify's stack of scopes;
  - the partial evaluator's environment;
  - the decomplifier's counter and entry list;
  - the explicator's locals;
  - the back end's blocks, homes and flags;
  - the interpreters' errors, caches and variables.
- **Specification functions.** Every method is proved against a pure function of the old state (`LexFrom`, the parser's `ExprAt` family, `Uq`, `PeExp`, `RcoExp`, `ExplicatedTail`, `TailCode`, `Patched`, `Render`, `Interp`, `TailRun`). `PeExp`, `RcoExp`, `TailCode` and `Patched` are the corrected passes; their as-written counterparts are `PeExpAsWritten`, `RcoExpAsWritten`, `TailCodeAsWritten` and `PatchedAsWritten`.
- **Lemmas about those functions** state what each pass promises.
- **Reference meanings** give the lemmas something to state meaning against:
  - `Semantics.Eval` for the tree;
  - `IrSemantics.RunTail` for the IR;
  - `X64Semantics.Run` for the emitted x64 subset.

Modules: `Ast`, `Lexer`, `Parser`, `Uniquify`, `Semantics`, `PartialEval`,
`Decomplify`, `Explicate`, `IrSemantics`, `X64Def`, `X64Semantics`,
`X64Backend`, `X64Patch`, `X64Transformer`, `X64Print`, `InterpAst`,
`InterpAstProps`, `InterpIr`, `InterpIrProps`.

Two snapshots are modelled:
- **From `src/`:** the lexer, parser and printer.
- **From `compiler/`:** all other passes.

The two snapshots differ on their `Program` type. The model takes each pass's own input type: the back end starts from the IR, and the printer from a listing with its externals, homes and blocks.

## Model

| member | source | states |
|---|---|---|
| Ast.NatToString | compiler/src/frontend/decomplify/mod.rs:32-40 | decimal digits of a natural number, non-empty, digits only (Rust's `to_string`, as used for `tmp.N`) |
| Ast.IntToString | src/backend/x64_print.rs:113-115 | decimal text of an integer, non-empty, starting with `-` exactly for negatives |
| Ast.NatToStringInjective | compiler/src/frontend/uniquify/mod.rs:56-61 | distinct numbers render to distinct digit strings |
| Ast.DecimalValueOfNatToString | src/frontend/parser.rs:123-130 | parsing the decimal rendering of a number gives the number back |
| Lexer.ScanEnd | src/lexer.rs:120-155 | end of the longest run of characters satisfying a predicate: every character before it satisfies it, the one at it does not |
| Lexer.SkipWs | src/lexer.rs:103-118 | the cursor after whitespace: only skipped characters are passed, and it stops at a character that is not skipped |
| Lexer.NextTok | src/lexer.rs:157-183 | a token other than end-of-file moves the cursor forward and stays within the text |
| Lexer.Lexer.constructor | src/lexer.rs:200-212 | a new lexer starts at position 0, line 1, column 1 |
| Lexer.Lexer.IsAtEnd | src/lexer.rs:67-69 | at the end exactly when the position has reached the length |
| Lexer.Lexer.Peek | src/lexer.rs:71-77 | the character under the cursor, or NUL at the end |
| Lexer.Lexer.PeekNext | src/lexer.rs:79-85 | the character after the cursor, or NUL past the end |
| Lexer.Lexer.Advance | src/lexer.rs:87-95 | at the end nothing moves and NUL is returned; otherwise position and column grow by one, the line is kept, and the new character is returned |
| Lexer.Lexer.AdvanceN | src/lexer.rs:97-101 | `n` single steps, stopping at the end |
| Lexer.Lexer.MakeToken | src/lexer.rs:44-65 | a token of the given kind whose lexeme is the next `len` characters, at the cursor's line and column; the cursor moves past it |
| Lexer.Lexer.SkipWhitespace | src/lexer.rs:103-118 | the cursor ends where `SkipWs` says |
| Lexer.Lexer.Number | src/lexer.rs:120-137 | a number token made of the digit run at the cursor |
| Lexer.Lexer.Identifier | src/lexer.rs:139-155 | an identifier token made of the letter at the cursor and the run of letters, digits and `-` after it |
| Lexer.Lexer.NextToken | src/lexer.rs:157-183 | the token and cursor `NextTok` gives |
| Lexer.LexFrom | src/lexer.rs:185-198 | never more tokens than characters left, and no end-of-file token among them |
| Lexer.Lexer.Lex | src/lexer.rs:185-198 | the tokens up to the first end-of-file token; none is an end-of-file token and each lexeme fits its kind |
| Lexer.NextTokFits | src/lexer.rs:157-183 | every token `next_token` makes has a lexeme of its kind |
| Lexer.LexedTokensFit | src/lexer.rs:185-198 | the whole stream has no end-of-file token; numbers are digit runs, identifiers start with a letter and go on over letters, digits and `-`, punctuation and unknown characters are single characters |
| Lexer.NumberIsMaximalDigitRun | src/lexer.rs:120-137 | a number's lexeme is the longest digit run at the token start, with the line and column of its first digit |
| Lexer.UnknownCharacterIsError | src/lexer.rs:172-178 | any other character lexes as a one-character `Error` token and moves one column on |
| Lexer.NewlineThenToken | src/lexer.rs:103-118 | a newline raises the line by one; the first token of the next line is reported at column 2 |
| Lexer.PunctuationToken | src/lexer.rs:166-169 | `+ - ( )` each lex as a one-character token of their kind at the cursor |
| Lexer.LexAddTwoTwo | compiler/src/frontend/lexer/lexer_tests.rs:20-38 | `(+ 2 2)` lexes to five tokens at columns 1, 2, 4, 6 and 7 of line 1 |
| Parser.Clamp | src/frontend/parser.rs:43-57 | the index `peek(n)` reads: `current + n` clamped into `[0, len - 1]` |
| Parser.Clamp0 | src/frontend/parser.rs:17-32 | the index `rewind(n)` moves to: `current - n` clamped into `[0, current]` |
| Parser.ExprAt | src/frontend/parser.rs:219-262 | one expression: the cursor never moves back and an expression that consumes nothing is an error node; the error list only gains error nodes, it gains some exactly when the tree holds one, and the success flag is cleared exactly then; a `(` group ends on `)` or is an error; with operator tokens spelling their operator the tree is well formed |
| Parser.GroupAt | src/frontend/parser.rs:225-243 | at least one token consumed; the group ends on `)` or is an error; errors recorded as for `ExprAt` |
| Parser.OperatorAt | src/frontend/parser.rs:197-217 | at least one token consumed; errors recorded as for `ExprAt`; a well-formed primitive when the lexemes spell the operators |
| Parser.IdentifierAt | src/frontend/parser.rs:132-195 | at least one token consumed; errors recorded as for `ExprAt` |
| Parser.LetAt | src/frontend/parser.rs:142-188 | a `Let` or an error node; errors recorded as for `ExprAt` |
| Parser.BindingsAt | src/frontend/parser.rs:152-175 | at least one binding and at least one token consumed; errors in the bound expressions recorded as for `ExprAt` |
| Parser.BindingAt | src/frontend/parser.rs:156-175 | at least one token consumed, and the cursor strictly nearer the end when another binding follows; errors recorded as for `ExprAt` |
| Parser.ProgramAt | src/frontend/parser.rs:264-288 | a first token other than `(` gives an error node; a program without error ends at `)`; errors recorded as for `ExprAt` |
| Parser.Parser.constructor | src/frontend/parser.rs:108-121 | position 0, success, no errors, no previous token |
| Parser.Parser.Peek | src/frontend/parser.rs:43-57 | the token at the clamped index |
| Parser.Parser.Rewind | src/frontend/parser.rs:17-32 | the position moves back to the clamped index and never forward; everything else is kept |
| Parser.Parser.Next | src/frontend/parser.rs:34-41 | the current token becomes `previous` and the position grows by exactly one |
| Parser.Parser.Expect | src/frontend/parser.rs:67-74 | consumes the token exactly when it has the expected type and says so; otherwise the state is unchanged |
| Parser.Parser.MakeErrorNode | src/frontend/parser.rs:94-106 | an error node for the token at the offset, appended to the errors; success becomes false |
| Parser.Parser.ParseNumber | src/frontend/parser.rs:123-130 | the integer the digit lexeme stands for, one token consumed |
| Parser.Parser.ParseIdentifier | src/frontend/parser.rs:132-195 | the tree and parser state `IdentifierAt` gives: `read` a primitive with no operands, `let` a `let` form or an error, any other name a `Var` of the lexeme |
| Parser.Parser.ParseLet | src/frontend/parser.rs:142-188 | the tree and parser state `LetAt` gives: the bindings, then the body; a missing `(`, `[` or `)` gives its error at that token |
| Parser.Parser.ParseBindings | src/frontend/parser.rs:152-175 | the bindings and parser state `BindingsAt` gives: one binding, then the rest while a `[` follows |
| Parser.Parser.ParseBinding | src/frontend/parser.rs:156-175 | the binding, the "another follows" flag and parser state `BindingAt` gives |
| Parser.Parser.ParseOperator | src/frontend/parser.rs:197-217 | the tree and parser state `OperatorAt` gives: `+` with two operands parsed left to right, `-` with one |
| Parser.Parser.ParseExpr | src/frontend/parser.rs:219-262 | the tree and parser state `ExprAt` gives |
| Parser.Parser.ParseGroup | src/frontend/parser.rs:225-243 | the tree and parser state `GroupAt` gives |
| Parser.Parser.ParseProgram | src/frontend/parser.rs:264-288 | the tree and parser state `ProgramAt` gives |
| Parser.AddSteps | src/frontend/parser.rs:197-217 | a `+` takes its first operand from the tokens right after it and its second from the tokens after the first, in that order |
| Parser.ExprRoundTrip | src/frontend/parser.rs:219-262 | the tokens spelling any error-free tree parse back to exactly that tree, with no new error and the cursor just past them |
| Parser.ProgramRoundTrip | src/frontend/parser.rs:264-288 | a spelled program parses back to its expression with no new error; the cursor rests on the closing `)` |
| Parser.ParseAddWithNegate | src/frontend/parser/parser_tests.rs:23-45 | the tokens of `(+ 2 (-1))` parse to `2` plus the negation of `1`, with success |
| Parser.ParseLetExample | src/frontend/parser/parser_tests.rs:47-72 | the tokens of `(let ([x 10]) x)` parse to a `let` binding `x` to 10 with body `x`, with success |
| Parser.LexedTokensParsable | src/frontend/parser.rs:43-57 | lexer output spells its operators and meets the parser's demands once it is non-empty and does not end in an opening token |
| Uniquify.LookupUnbound | compiler/src/frontend/uniquify/mod.rs:18-34 | a name no scope binds keeps its name |
| Uniquify.LookupInnermost | compiler/src/frontend/uniquify/mod.rs:18-34 | a name is renamed by the innermost scope that binds it |
| Uniquify.Frame | compiler/src/frontend/uniquify/mod.rs:56-61 | the scope a `let` builds maps each of its binders `x` to `x.d` |
| Uniquify.Uq | compiler/src/frontend/uniquify/mod.rs:14-91 | renaming keeps constructors, operators, arities and binding counts in order; literals and error nodes are unchanged |
| Uniquify.UqArgs | compiler/src/frontend/uniquify/mod.rs:36-46 | as many operands as before, each of the same shape as the one it renames |
| Uniquify.UqBinds | compiler/src/frontend/uniquify/mod.rs:56-75 | as many bindings as before, each bound expression of the same shape as the one it renames |
| Uniquify.Uniquifier.constructor | compiler/src/frontend/uniquify/mod.rs:104 | a fresh, empty scope stack |
| Uniquify.Uniquifier.UniquifyExp | compiler/src/frontend/uniquify/mod.rs:14-91 | the renamed expression `Uq` gives, with the scope stack as it was on entry |
| Uniquify.Uniquifier.LookupName | compiler/src/frontend/uniquify/mod.rs:18-34 | the innermost scope's mapping, or the name itself |
| Uniquify.Uniquifier.UniquifyPrim | compiler/src/frontend/uniquify/mod.rs:36-46 | operands renamed one by one; scope stack unchanged |
| Uniquify.Uniquifier.UniquifyLet | compiler/src/frontend/uniquify/mod.rs:48-85 | a scope opened, each binding renamed then bound, the body renamed, the scope closed: the stack has its entry length on exit |
| Uniquify.UniquifyProgram | compiler/src/frontend/uniquify/mod.rs:93-110 | every function renamed from an empty scope stack; the function names are kept |
| Uniquify.UqBindsScope | compiler/src/frontend/uniquify/mod.rs:56-75 | each binding's expression is renamed in the outer scopes plus the earlier binders; the body's scope binds every binder as `x.d` |
| Uniquify.UqLet | compiler/src/frontend/uniquify/mod.rs:48-85 | the whole `let`: binders renamed by depth, binding expressions see only the earlier binders, the body sees all of them |
| Uniquify.RenamedInjective | compiler/src/frontend/uniquify/mod.rs:61 | binders without `.` at different depths, or with different names, never get the same new name |
| Uniquify.UqNestedLet | compiler/src/frontend/uniquify/uniquify_tests.rs:72-103 | nested binders become `x.1` and `y.2` |
| Uniquify.UqShadowing | compiler/src/frontend/uniquify/uniquify_tests.rs:106-144 | a shadowing binding's expression sees the outer `x`: `x.2 = (+ x.1 1)` |
| PartialEval.NegFolded | compiler/src/frontend/partial_eval/mod.rs:39-64 | folds to `0 - n` exactly when the operand is known; otherwise rebuilds `(- a)` |
| PartialEval.AddFolded | compiler/src/frontend/partial_eval/mod.rs:66-112 | folds to the sum exactly when both operands are known; otherwise rebuilds `(+ a b)` in order |
| PartialEval.PeExp | compiler/src/frontend/partial_eval/mod.rs:139-197 | the corrected evaluation: the environment only gains names |
| PartialEval.PeBinds | compiler/src/frontend/partial_eval/mod.rs:154-170 | the environment keeps its names and gains every binder |
| PartialEval.PartialEvaluator.constructor | compiler/src/frontend/partial_eval/mod.rs:19-24 | an empty environment |
| PartialEval.PartialEvaluator.Evaluate | compiler/src/frontend/partial_eval/mod.rs:26-37 | every function evaluated once, all sharing the environment in visit order; the keys are kept |
| PartialEval.PartialEvaluator.PartialEvalNegate | compiler/src/frontend/partial_eval/mod.rs:39-64 | result and environment as `PeNegate` says |
| PartialEval.PartialEvaluator.PartialEvalAdd | compiler/src/frontend/partial_eval/mod.rs:66-112 | result and environment as `PeAdd` says, left operand first |
| PartialEval.PartialEvaluator.PartialEvalPrim | compiler/src/frontend/partial_eval/mod.rs:114-137 | result and environment as `PeExp` says for a primitive |
| PartialEval.PartialEvaluator.PartialEvalExp | compiler/src/frontend/partial_eval/mod.rs:139-197 | result and environment as `PeExp` says |
| PartialEval.PartiallyEvaluate | compiler/src/frontend/partial_eval/mod.rs:200-203 | the keys are kept; a single function is evaluated from an empty environment |
| PartialEval.WellFormedHasOperands | compiler/src/frontend/partial_eval/mod.rs:114-137 | parsed trees have the operands the evaluator indexes |
| PartialEval.PeSoundLetFree | compiler/src/frontend/partial_eval/mod.rs:139-153 | on let-free input, under any valuation agreeing with the environment, the result evaluates to the same value and consumes the same input |
| PartialEval.AddFoldedSound | compiler/src/frontend/partial_eval/mod.rs:66-112 | folding `+` keeps its meaning |
| PartialEval.NegFoldedSound | compiler/src/frontend/partial_eval/mod.rs:39-64 | folding `-` keeps its meaning |
| PartialEval.PeFreeVars | compiler/src/frontend/partial_eval/mod.rs:139-197 | the result has no free name the input lacks |
| PartialEval.PeBindsFreeVars | compiler/src/frontend/partial_eval/mod.rs:154-170 | bindings keep their number and binders and gain no free name |
| PartialEval.PeExpAsWritten | compiler/src/frontend/partial_eval/mod.rs:139-197 | the evaluation as written, with a panic as no result: the environment only gains names |
| PartialEval.PeBindsAsWritten | compiler/src/frontend/partial_eval/mod.rs:154-170 | the bindings as written: the environment only gains names |
| PartialEval.LetVarBodyEscapes | compiler/src/frontend/partial_eval/mod.rs:172-181 | as written, `(let ([x 1] [y x]) y)` (value 1) becomes the free `x`; the corrected pass keeps the `let` |
| PartialEval.FoldAddConstants | compiler/src/frontend/partial_eval/partial_eval_tests.rs:33-62 | `(+ 2 2)` folds to 4 and `(+ 2 (+ 2 2))` to 6 |
| PartialEval.FoldNegateAdd | compiler/src/frontend/partial_eval/partial_eval_tests.rs:65-78 | `(- (+ 3 (- 5)))` folds to 2 |
| PartialEval.FoldAroundRead | compiler/src/frontend/partial_eval/partial_eval_tests.rs:106-127 | `(+ (read) (- (+ 5 3)))` becomes `(+ (read) -8)` |
| Decomplify.TmpName | compiler/src/frontend/decomplify/mod.rs:32-40 | the `k`-th temporary is named `tmp.k` |
| Decomplify.TmpNameInjective | compiler/src/frontend/decomplify/mod.rs:32-40 | equal temporary names have equal numbers |
| Decomplify.TmpNameDistinct | compiler/src/frontend/decomplify/mod.rs:32-40 | all generated temporaries are pairwise distinct |
| Decomplify.EnvFind | compiler/src/frontend/decomplify/mod.rs:42-50 | the expression of the first entry with the name; none exactly when no entry has it |
| Decomplify.EnvFindFirst | compiler/src/frontend/decomplify/mod.rs:42-50 | the first matching entry is the one found |
| Decomplify.WellFormedRcoOk | compiler/src/frontend/decomplify/mod.rs:107-116 | error-free parsed trees never reach `unreachable!` |
| Decomplify.Atomize | compiler/src/frontend/decomplify/mod.rs:57-117 | literals and names come back unchanged with the entries untouched; anything else becomes `Var(tmp.k)` with one new entry for it at the end, and what it binds has atomic operands |
| Decomplify.RcoExp | compiler/src/frontend/decomplify/mod.rs:119-305 | every `+` and `-` in the result has atom operands; a result that is not a `let` is the input itself |
| Decomplify.Expanded | compiler/src/frontend/decomplify/mod.rs:156-170 | one binding becomes a non-empty list ending in its own binder |
| Decomplify.RcoBinds | compiler/src/frontend/decomplify/mod.rs:130-190 | never fewer bindings than the input, all with atomic operands |
| Decomplify.FindAtomized | compiler/src/frontend/decomplify/mod.rs:241-278 | `env_get` on a new temporary finds what it was bound to, however many entries follow |
| Decomplify.RcoBindsKeepsOrder | compiler/src/frontend/decomplify/mod.rs:150-181 | the input binders appear in the output in their original order |
| Decomplify.Rco.constructor | compiler/src/frontend/decomplify/mod.rs:25-30 | counter 0, no entries |
| Decomplify.Rco.Tmp | compiler/src/frontend/decomplify/mod.rs:32-40 | returns `tmp.<counter>` and increments the counter |
| Decomplify.Rco.EnvGet | compiler/src/frontend/decomplify/mod.rs:42-50 | the first entry with the name, from the front |
| Decomplify.Rco.EnvSet | compiler/src/frontend/decomplify/mod.rs:52-54 | appends one entry |
| Decomplify.Rco.RcoAtom | compiler/src/frontend/decomplify/mod.rs:57-117 | what `Atomize` says; no entry names a temporary the counter has not yet handed out |
| Decomplify.Rco.RcoExpr | compiler/src/frontend/decomplify/mod.rs:119-305 | what `RcoExp` says |
| Decomplify.Rco.RcoNegate | compiler/src/frontend/decomplify/mod.rs:200-235 | the `-` case of `RcoExp` |
| Decomplify.Rco.RcoAdd | compiler/src/frontend/decomplify/mod.rs:237-293 | the `+` case of `RcoExp`: operands atomized left first |
| Decomplify.Rco.BindOperand | compiler/src/frontend/decomplify/mod.rs:248-278 | the binding for an atomized operand, found through `env_get` |
| Decomplify.Rco.RcoLet | compiler/src/frontend/decomplify/mod.rs:130-190 | the `let` case of `RcoExp` |
| Decomplify.DecomplifyProgram | compiler/src/frontend/decomplify/mod.rs:307-321 | starts from counter 0; the result has atomic operands |
| Decomplify.AtomizeAsWritten | compiler/src/frontend/decomplify/mod.rs:96-105 | `rco_atom` as written: a changed operand becomes a variable, and `(- a)` is bound without treating `a` |
| Decomplify.RcoExpAsWritten | compiler/src/frontend/decomplify/mod.rs:119-305 | `rco_expr` as written: the counter never goes back, and a result that is not a `let` is the input itself |
| Decomplify.RcoBindsAsWritten | compiler/src/frontend/decomplify/mod.rs:130-190 | the bindings as written: the counter never goes back, and no binding is lost between the untouched and the expanded lists |
| Decomplify.NegatedOperandStaysComplex | compiler/src/frontend/decomplify/mod.rs:96-105 | as written `(- (- (read)))` keeps a complex operand under `-`; the corrected pass binds `(read)` too |
| Decomplify.LetBindingsReordered | compiler/src/frontend/decomplify/mod.rs:173-185 | as written `(let ([a (+ 1 (+ 2 3))] [b a]) b)` (value 6) puts `[b a]` first and evaluates to nothing |
| Decomplify.LetBindingsKept | compiler/src/frontend/decomplify/mod.rs:150-181 | the corrected pass keeps `a` before `b` in that example |
| Decomplify.DecomplifyAddition | compiler/src/frontend/decomplify/decomplify_tests.rs:13-49 | `(+ x (+ x y))` becomes `(let ([tmp.0 (+ x y)]) (+ x tmp.0))` |
| Decomplify.DecomplifyLetRead | compiler/src/frontend/decomplify/decomplify_tests.rs:51-93 | `(let ([x.1 42]) (+ x.1 (read)))` binds `(read)` to `tmp.0` in an inner `let` |
| Explicate.AtmOf | compiler/src/ir/explicate.rs:71-97 | an AST atom becomes the IR atom with the same value or name |
| Explicate.AtmsOf | compiler/src/ir/explicate.rs:71-97 | operands converted keeping length and order |
| Explicate.PrimArgsToAtms | compiler/src/ir/explicate.rs:71-97 | the loop gives `AtmsOf` |
| Explicate.Chain | compiler/src/ir/explicate.rs:185-281 | the assignments that store a value in `x` end with the one to `x`, and all assign variables |
| Explicate.AssignIsChain | compiler/src/ir/explicate.rs:185-281 | `explicate_assign` prepends exactly the chain for `x`; one local pushed per assignment, naming its target |
| Explicate.BindingsAreChain | compiler/src/ir/explicate.rs:134-153 | the right fold over the bindings prepends their chains in binding order |
| Explicate.TailIsChain | compiler/src/ir/explicate.rs:107-183 | a tail becomes its assignments in binding order, then the return |
| Explicate.ExplicatedTailParts | compiler/src/ir/explicate.rs:107-183 | the tail's statements are the chain, it returns the reference result, and `Assign` count equals the locals pushed |
| Explicate.NestedLetAssignsOuterLast | compiler/src/ir/explicate.rs:221-241 | inner bindings are assigned before the outer variable, which is assigned last |
| Explicate.SortBy | compiler/src/ir/explicate.rs:309-312 | sorting keeps the same names, each as often |
| Explicate.SortBySorted | compiler/src/ir/explicate.rs:309-312 | with a total preorder the result is sorted |
| Explicate.Explicator.constructor | compiler/src/ir/explicate.rs:101-105 | no locals |
| Explicate.Explicator.ExplicateTail | compiler/src/ir/explicate.rs:107-183 | the tail `ExplicatedTail` gives, its locals appended |
| Explicate.Explicator.ExplicateAssign | compiler/src/ir/explicate.rs:185-281 | the tail `ExplicatedAssign` gives, its locals appended |
| Explicate.Explicator.AssignBindings | compiler/src/ir/explicate.rs:138-150 | the fold from the last binding down to the first |
| Explicate.ExplicateFunction | compiler/src/ir/explicate.rs:293-318 | the tail under `.l1` with the sorted locals |
| Explicate.ExplicatedFunctionShape | compiler/src/ir/explicate.rs:293-318 | one label `.l1`; locals sorted, one per assignment, naming exactly the assigned variables |
| Explicate.ExplicateControl | compiler/src/ir/explicate.rs:284-322 | keys kept; every function has the one label `.l1` and sorted locals naming the assigned variables |
| Explicate.ExplicateAddRead | compiler/src/ir/explicate_tests.rs:104-144 | two reads assigned in order, then the sum returned |
| Explicate.ExplicateAddReadLocals | compiler/src/ir/explicate.rs:309-312 | with `tmp.0` before `tmp.1` in the order, the locals are `[tmp.0, tmp.1]` |
| IrSemantics.ExpValue | compiler/src/ir/explicate.rs:15-25 | only `read` consumes input, exactly its first value |
| IrSemantics.ExecStmt | compiler/src/ir/explicate.rs:15-25 | an assignment adds exactly its variable to the store |
| X64Semantics.RunAppend | compiler/src/backend/x64_backend.rs:121-127 | code without `ret` runs as its first part then its second |
| X64Backend.ArgOf | compiler/src/backend/x64_backend.rs:44-62 | an integer becomes an immediate and a variable stays a variable |
| X64Backend.StmtCode | compiler/src/backend/x64_backend.rs:64-115 | the corrected code of an assignment; it mentions exactly the target's and the expression's variables |
| X64Backend.ReturnCode | compiler/src/backend/x64_backend.rs:129-171 | the corrected code of a return; it mentions exactly the expression's variables |
| X64Backend.TailCode | compiler/src/backend/x64_backend.rs:121-173 | the corrected selection of a tail; the variables it mentions are exactly those `handle_atom` records for the tail |
| X64Backend.SelectedShape | compiler/src/backend/x64_backend.rs:121-173 | selected code leaves the stack alone, has no `ret` and never mentions `r15` |
| X64Backend.StmtCorrect | compiler/src/backend/x64_backend.rs:64-115 | the corrected code of any assignment leaves the store and input the assignment leaves, including a `+` whose right operand is its own target |
| X64Backend.ReturnCorrect | compiler/src/backend/x64_backend.rs:129-171 | the code of a return leaves the value in `rax` |
| X64Backend.SelectCorrect | compiler/src/backend/x64_backend.rs:121-173 | the corrected selection of any selectable tail leaves the tail's value in `rax` and consumes the same input |
| X64Backend.StmtCodeAsWritten | compiler/src/backend/x64_backend.rs:64-115 | `handle_stmt` as written; it mentions exactly the target's and the expression's variables |
| X64Backend.ReturnCodeAsWritten | compiler/src/backend/x64_backend.rs:129-171 | the `Return` arm as written; it mentions exactly the expression's variables |
| X64Backend.TailCodeAsWritten | compiler/src/backend/x64_backend.rs:121-173 | `select_instruction` as written; it mentions exactly the variables the corrected selection records |
| X64Backend.EqualOperandsAsWritten | compiler/src/backend/x64_backend.rs:95-104 | as written `x = 1; return (+ x x)` adds `x` to a stale `rax` (1 from `rax = 0`); the corrected selection returns 2 |
| X64Backend.SelfOperandAsWritten | compiler/src/backend/x64_backend.rs:95-105 | as written `x.1 = 5; x.1 = (+ 1 x.1); return x.1` (value 6) loads 1 into `x.1` and adds it to itself, returning 2; the corrected selection returns 6 |
| X64Patch.PatchInstr | compiler/src/backend/x64_backend.rs:239-273 | one patched instruction is never memory to memory; an instruction that is not memory to memory is kept alone |
| X64Patch.Patched | compiler/src/backend/x64_backend.rs:234-276 | the corrected patch: no patched block has a memory-to-memory instruction |
| X64Patch.PatchInstrAsWritten | compiler/src/backend/x64_backend.rs:239-273 | one instruction as written: no memory-to-memory `mov` is left, and anything else is kept alone |
| X64Patch.PatchedAsWritten | compiler/src/backend/x64_backend.rs:234-276 | the block as written: no memory-to-memory `mov` is left |
| X64Patch.WithOperands | compiler/src/backend/x64_backend.rs:234-276 | the same two-operand instruction on the given operands |
| X64Patch.Patch | compiler/src/backend/x64_backend.rs:234-276 | the loop gives the patched block; the flag is true exactly when some instruction was memory to memory |
| X64Patch.PatchedKeeps | compiler/src/backend/x64_backend.rs:234-276 | a block with nothing to patch is kept as it is |
| X64Patch.PatchedShape | compiler/src/backend/x64_backend.rs:234-276 | patching leaves the frame alone and adds no `ret` |
| X64Patch.PatchedNames | compiler/src/backend/x64_backend.rs:234-276 | patching mentions the same variables |
| X64Patch.PatchInstrSound | compiler/src/backend/x64_backend.rs:245-257 | one instruction and its patch end in machines agreeing on all but `r15` |
| X64Patch.MemToMemSound | compiler/src/backend/x64_backend.rs:245-257 | a memory-to-memory instruction and its `r15` detour end in machines agreeing on all but `r15` |
| X64Patch.KeptSound | compiler/src/backend/x64_backend.rs:265-271 | an instruction kept as it is ends in machines agreeing on all but `r15` |
| X64Patch.PatchedSound | compiler/src/backend/x64_backend.rs:234-276 | patched code computes what the code computed, except in `r15` |
| X64Patch.AddBetweenVariablesAsWritten | compiler/src/backend/x64_backend.rs:241-243 | as written `c := a; c += b` keeps a memory-to-memory `add`; the corrected patch leaves none |
| X64Transformer.SetToSeq | compiler/src/backend/x64_backend.rs:194 | a hash set collected into a vector: every element once |
| X64Transformer.AssignedHomes | compiler/src/backend/x64_backend.rs:188-216 | every variable gets one slot; the slots are `8, 16, ...` from the base with no repeats, deeper slots for later names |
| X64Transformer.LayoutOrdered | compiler/src/backend/x64_backend.rs:194-214 | with the names sorted first, a deeper slot always holds a name that sorts later |
| X64Transformer.FrameSafeRun | compiler/src/backend/x64_backend.rs:318-386 | selected and patched code leaves memory, `rsp` and `rbp` as it found them |
| X64Transformer.PrologueRun | compiler/src/backend/x64_backend.rs:342-362 | after the prologue, `rbp` points at the saved `rbp`, a saved `r15` sits above it, `rsp` is the decrement below |
| X64Transformer.EpilogueRun | compiler/src/backend/x64_backend.rs:364-374 | the epilogue and `ret` reload `rbp` and a saved `r15` and keep `rax` |
| X64Transformer.FramedRestores | compiler/src/backend/x64_backend.rs:336-378 | the framed entry block runs exactly when its body does and restores `rsp`, `rbp` and `r15`, keeping the variables, `rax` and the input |
| X64Transformer.IRToX64Transformer.constructor | compiler/src/backend/x64_backend.rs:304-316 | no blocks, homes, externals or flags; offset 0 |
| X64Transformer.IRToX64Transformer.HandleAtom | compiler/src/backend/x64_backend.rs:44-62 | the operand `ArgOf` gives; a variable is recorded with an undecided home |
| X64Transformer.IRToX64Transformer.HandleStmt | compiler/src/backend/x64_backend.rs:64-115 | appends the code of the assignment; `read` adds `read_int` to the externals |
| X64Transformer.IRToX64Transformer.SelectInstruction | compiler/src/backend/x64_backend.rs:121-127 | appends the statements' code, then the return's; only ever appends |
| X64Transformer.IRToX64Transformer.SelectReturn | compiler/src/backend/x64_backend.rs:129-171 | appends the code leaving the value in `rax` |
| X64Transformer.IRToX64Transformer.NextRbpOffset | compiler/src/backend/x64_backend.rs:296-302 | the offset grows by 8 and is returned |
| X64Transformer.IRToX64Transformer.AssignHomes | compiler/src/backend/x64_backend.rs:188-216 | the sorted variables placed at successive slots; the frame becomes necessary exactly when there is a variable |
| X64Transformer.IRToX64Transformer.PatchInstructions | compiler/src/backend/x64_backend.rs:279-290 | every block patched; `r15` marked used when some block needed it |
| X64Transformer.IRToX64Transformer.RspDecrement | compiler/src/backend/x64_backend.rs:349-358 | 8 bytes per stack home |
| X64Transformer.IRToX64Transformer.SelectAll | compiler/src/backend/x64_backend.rs:322-328 | every label selected into its block, recording its variables and externals |
| X64Transformer.IRToX64Transformer.WrapEntry | compiler/src/backend/x64_backend.rs:336-378 | the entry block framed when needed, with room for every home, closed by `ret` |
| X64Transformer.IRToX64Transformer.SelectPlacePatch | compiler/src/backend/x64_backend.rs:322-334 | selected, placed and patched blocks; `r15` used exactly when some label moves memory to memory |
| X64Transformer.IRToX64Transformer.SelectPlace | compiler/src/backend/x64_backend.rs:322-331 | selected blocks and placed homes |
| X64Transformer.IRToX64Transformer.Transform | compiler/src/backend/x64_backend.rs:318-386 | the function `Compiled` describes; `r15` is only used inside a frame |
| X64Transformer.FrameEntry | compiler/src/backend/x64_backend.rs:338-376 | the insertions at the front and pushes at the end give prologue, body, epilogue and `ret` |
| X64Transformer.ScratchNeedsHomes | compiler/src/backend/x64_backend.rs:342-370 | a function that needs `r15` has a variable, so it has a frame to save `r15` in |
| X64Transformer.ScratchUse | compiler/src/backend/x64_backend.rs:279-290 | patching needs `r15` exactly when some label's selected code moves memory to memory |
| X64Transformer.UnplacedNames | compiler/src/backend/x64_backend.rs:44-62 | recording names as undecided homes loses and merges none |
| X64Transformer.TransformFunction | compiler/src/backend/x64_backend.rs:396-406 | a fresh transformer per function; its function and its externals |
| X64Transformer.IrToX64 | compiler/src/backend/x64_backend.rs:389-413 | every function compiled; the program's externals are those of all functions |
| X64Print.RegName | src/backend/x64_print.rs:23-89 | a lower-case name of two or three characters starting with `r` |
| X64Print.RegNameRoundTrip | src/backend/x64_print.rs:23-89 | reading a register's name back gives the register |
| X64Print.RegNameInjective | src/backend/x64_print.rs:23-89 | the sixteen registers have sixteen names |
| X64Print.IntToStringRoundTrip | src/backend/x64_print.rs:113-115 | an immediate's text is decimal and reads back to the integer |
| X64Print.IntToStringInjective | src/backend/x64_print.rs:113-115 | distinct immediates print differently |
| X64Print.LookupFirst | src/backend/x64_print.rs:13-21 | `get_var` finds the first home with the name, and none exactly when no home has it |
| X64Print.StackTextInjective | src/backend/x64_print.rs:101-103 | distinct stack slots print differently |
| X64Print.ArgTextOneLine | src/backend/x64_print.rs:91-125 | an operand prints as a non-empty piece of one line |
| X64Print.ArgTextShape | src/backend/x64_print.rs:91-125 | an immediate in decimal, a register by name, a stack home as `qword [rbp-k]` |
| X64Print.ArgTextInjective | src/backend/x64_print.rs:91-125 | operands that print the same stand for the same location or value |
| X64Print.OperandsOneLine | src/backend/x64_print.rs:127-193 | an instruction's operands print on one line |
| X64Print.InstrLine | src/backend/x64_print.rs:127-193 | every instruction prints as one line opening with its mnemonic and ending in a newline |
| X64Print.ExternDecls | src/backend/x64_print.rs:205-210 | one `extern` line per runtime function |
| X64Print.RenderExtendsHeader | src/backend/x64_print.rs:201-238 | the listing starts with the header |
| X64Print.ExternHeader | src/backend/x64_print.rs:201-238 | the listing opens with `extern` exactly when the program calls a runtime function, otherwise with `global start` |
| X64Print.HeaderOpens | src/backend/x64_print.rs:214-225 | the header opens with `extern` exactly when there are externals |
| X64Print.X64Printer.constructor | src/backend/x64_print.rs:195-199 | a printer for one listing |
| X64Print.X64Printer.GetVar | src/backend/x64_print.rs:13-21 | the first home with the name |
| X64Print.X64Printer.ArgToString | src/backend/x64_print.rs:91-125 | the text `ArgText` gives |
| X64Print.X64Printer.InstrToText | src/backend/x64_print.rs:127-193 | the text `InstrText` gives |
| X64Print.X64Printer.Print | src/backend/x64_print.rs:201-238 | the header, then each block, in the given walk orders |
| X64Print.X64Printer.PrintHeader | src/backend/x64_print.rs:201-225 | the `extern` lines and a blank line when there are externals, then `global start` and `section .text` |
| X64Print.X64Printer.PrintBlock | src/backend/x64_print.rs:227-235 | the `label:` line, then each instruction indented four spaces |
| X64Print.PrintConstant | compiler/src/backend/x64_print_tests.rs:17-33 | the program `(2)` prints as one `start` block with `mov rax, 2` and `ret` |
| InterpAst.Store | compiler/src/interpreter/interp_ast.rs:77-91 | appends to the back of the function's queue, creating it when missing; other queues are kept |
| InterpAst.BindsStopped | compiler/src/interpreter/interp_ast.rs:177-184 | once a binding stops the `let`, later bindings are not looked at |
| InterpAst.AstInterpreter.constructor | compiler/src/interpreter/interp_ast.rs:25-34 | no errors, an empty cache, recording mode |
| InterpAst.AstInterpreter.SetCachedRuntimeCalls | compiler/src/interpreter/interp_ast.rs:47-53 | switches to replaying the given cache |
| InterpAst.AstInterpreter.InterpretSuccess | compiler/src/interpreter/interp_ast.rs:93-95 | success exactly when no error was recorded |
| InterpAst.AstInterpreter.AddError | compiler/src/interpreter/interp_ast.rs:107-113 | the flag raised, the message appended, no value |
| InterpAst.AstInterpreter.GetCachedResultOf | compiler/src/interpreter/interp_ast.rs:59-75 | pops the front of the function's queue |
| InterpAst.AstInterpreter.SetCachedResultOf | compiler/src/interpreter/interp_ast.rs:77-91 | pushes onto the back of the function's queue |
| InterpAst.AstInterpreter.GetLine | compiler/src/interpreter/interp_ast.rs:153-155 | the next line of input, or an empty line at the end |
| InterpAst.AstInterpreter.Interpret | compiler/src/interpreter/interp_ast.rs:36-45 | the run `Interp` gives from an empty environment, with the cache it leaves |
| InterpAst.AstInterpreter.InterpExp | compiler/src/interpreter/interp_ast.rs:115-212 | outcome, environment, errors, cache and input as `Interp` says |
| InterpAst.AstInterpreter.InterpPrim | compiler/src/interpreter/interp_ast.rs:120-172 | the primitive cases; an unknown operator is an error |
| InterpAst.AstInterpreter.InterpAdd | compiler/src/interpreter/interp_ast.rs:122-135 | both operands left to right, then their sum or no value |
| InterpAst.AstInterpreter.InterpNegate | compiler/src/interpreter/interp_ast.rs:136-140 | the negated operand; a panic when it has no value |
| InterpAst.AstInterpreter.InterpRead | compiler/src/interpreter/interp_ast.rs:141-168 | the next cached value when replaying, otherwise the next input line, cached when it parses |
| InterpAst.AstInterpreter.InterpLet | compiler/src/interpreter/interp_ast.rs:175-193 | the bindings in order, then the body |
| InterpAst.AstInterpreter.Bind | compiler/src/interpreter/interp_ast.rs:177-188 | a name already bound stops the `let` with "`x` is already defined!"; otherwise it is inserted |
| InterpAstProps.InterpReports | compiler/src/interpreter/interp_ast.rs:115-212 | errors only grow; a run without panic yields a value exactly when it records no error; bindings are never overwritten; the integers read are queued in order |
| InterpAstProps.Replay | compiler/src/interpreter/interp_ast.rs:59-91 | replaying a successful run with its reads at the front of the queue gives the same value and environment and pops exactly those reads (FIFO) |
| InterpAstProps.AddSucceeds | compiler/src/interpreter/interp_ast.rs:122-135 | a `+` with a value has two operands with values and yields their sum |
| InterpAstProps.AddOfValues | compiler/src/interpreter/interp_ast.rs:122-135 | two operands with values make a `+` that yields their sum |
| InterpAstProps.LetSucceeds | compiler/src/interpreter/interp_ast.rs:175-193 | a `let` with a value bound every name and yields its body's value |
| InterpAstProps.InterpSuffix | compiler/src/interpreter/interp_ast.rs:153-166 | a run only consumes a prefix of the input |
| InterpIr.VarValue | compiler/src/interpreter/interp_ir.rs:50-90 | looking a variable up changes no variable, cache or input |
| InterpIr.OperandValue | compiler/src/interpreter/interp_ir.rs:92-163 | an operand is an integer or a panic |
| InterpIr.ArithmeticResult | compiler/src/interpreter/interp_ir.rs:92-163 | arithmetic changes no variable, cache or input |
| InterpIr.Push | compiler/src/interpreter/interp_ir.rs:239-270 | appends to the back of the function's queue |
| InterpIr.ReadResult | compiler/src/interpreter/interp_ir.rs:234-270 | `read` changes no variable |
| InterpIr.ExpResult | compiler/src/interpreter/interp_ir.rs:208-282 | an expression changes no variable |
| InterpIr.PrimResult | compiler/src/interpreter/interp_ir.rs:208-282 | a primitive changes no variable |
| InterpIr.IrInterpreter.constructor | compiler/src/interpreter/interp_ir.rs:337-345 | no errors and no variables |
| InterpIr.IrInterpreter.AddError | compiler/src/interpreter/interp_ir.rs:43-48 | the flag raised, the message appended, no value |
| InterpIr.IrInterpreter.HasError | compiler/src/interpreter/interp_ir.rs:327-329 | true exactly when an error was recorded |
| InterpIr.IrInterpreter.GetVarValue | compiler/src/interpreter/interp_ir.rs:50-90 | the integer a variable holds, or the undeclared-variable error |
| InterpIr.IrInterpreter.Operand | compiler/src/interpreter/interp_ir.rs:92-163 | an operand as `OperandValue` says |
| InterpIr.IrInterpreter.AtmArithmetic | compiler/src/interpreter/interp_ir.rs:92-163 | the sum of `+`, `0 - v` of `-`; only integers |
| InterpIr.IrInterpreter.HandleRead | compiler/src/interpreter/interp_ir.rs:234-270 | the next cached value when replaying, otherwise an input line, cached |
| InterpIr.IrInterpreter.HandleExp | compiler/src/interpreter/interp_ir.rs:208-282 | only ever an integer atom or nothing |
| InterpIr.IrInterpreter.HandlePrim | compiler/src/interpreter/interp_ir.rs:208-282 | the primitives; only integers |
| InterpIr.IrInterpreter.HandleStmt | compiler/src/interpreter/interp_ir.rs:284-312 | binds the target as `StmtResult` says; every variable stays an integer |
| InterpIr.IrInterpreter.HandleTail | compiler/src/interpreter/interp_ir.rs:314-325 | statements in order, then the return |
| InterpIr.IrInterpreter.Interpret | compiler/src/interpreter/interp_ir.rs:349-393 | the `start` tail; no value implies the error flag, which is returned |
| InterpIrProps.ExpReports | compiler/src/interpreter/interp_ir.rs:208-282 | an expression yields an integer or nothing, and a value exactly when it records no error |
| InterpIrProps.StmtBinds | compiler/src/interpreter/interp_ir.rs:284-312 | an assignment binds only its target, to the expression's value, and nothing when it has none |
| InterpIrProps.TailKeepsInts | compiler/src/interpreter/interp_ir.rs:314-325 | a tail keeps every variable an integer and never removes an error |
| InterpIrProps.ExpAgrees | compiler/src/interpreter/interp_ir.rs:208-282 | an expression the IR meaning evaluates yields the same integer and the same reads |
| InterpIrProps.StmtAgrees | compiler/src/interpreter/interp_ir.rs:284-312 | an assignment stores the same value as the IR meaning |
| InterpIrProps.TailAgrees | compiler/src/interpreter/interp_ir.rs:314-325 | a tail yields the IR meaning's value with no error |
| InterpIrProps.InterpretAgrees | compiler/src/interpreter/interp_ir.rs:349-393 | replaying its reads, `interpret` returns the value the IR meaning gives and reports no error |

## Left out

- HashMap and HashSet iteration order is left open. It is a parameter wherever it shows:
  - the order the printer walks externals and blocks;
  - `X64Transformer.SetToSeq`;
  - the order `transform` and `ir_to_x64` take labels and functions.
- `natord::compare` is a parameter `le`, required to be a total preorder.
- `i64` arithmetic is unbounded `int`. Overflow in folding, in the interpreters and in `parse::<i64>` is not modelled.
- Standard input is a sequence of lines, each an integer or the parse error it gives. Console output is not modelled: `print_errors`, `println`, `main` and the read-eval-print loop.
- Panics (`unwrap`, `unreachable!`, out-of-range indexing) are not modelled as code paths:
  - in the interpreters they are a `Panic` outcome;
  - elsewhere they are preconditions: `Parser.Parsable`, `Decomplify.RcoOk`, `Explicate.Explicable`, `X64Backend.Selectable`, `X64Print.PrintableArg`.
- `Deref` operands are outside `X64Print.PrintableArg`, because the printer panics on them.
- `InterpAst.AstInterpreter.GetCachedResultOf` requires a non-empty queue, because the source panics on an empty or missing one.
- `storing_cached_runtime_calls` is set but never read, and is not modelled. The same holds for `liveness_set`.
- `last_error` is not modelled.
- Runtime values other than integers are known only by their debug rendering. The debug rendering of tokens and atoms is simplified.
- The function path that `function!()` adds to the IR interpreter's "not an i64" message is shortened to the function name.
- `InterpIr.VarValue`: a variable bound to another variable would be looked up again. That path is unreachable because variables only hold integers (`IntsOnly`), so it is not modelled.
- `InterpIrProps.InterpretAgrees` only covers replay mode, where `read` takes cached values. Recording mode is covered only by `InterpIrProps.TailKeepsInts` and `InterpIrProps.ExpReports`.
- The IR interpreter starts at the label `start`, while `explicate_control` emits `.l1`. The two are modelled as written and never connected.
- `PartialEval.PeSoundLetFree` proves meaning preservation only for `let`-free input. The environment has no scopes, so shadowing breaks it: `(let ([x 1]) (+ (let ([x 2]) x) x))` gives 4 where 3 is meant. For input with `let`, `PartialEval.PeFreeVars` proves only that no free name is introduced.
- `PartialEval.PartiallyEvaluate` states each function's result only for a program with one function. The functions share one environment in hash order, and `PartialEval.PartialEvaluator.Evaluate` states that in general.
- Decomplify is proved to make operands atomic and keep binder order. Meaning preservation is not proved.
- Explicate-control is proved to produce the assignment chain that follows binding order. Its meaning against `IrSemantics` is not proved.
- Evaluate: follows the corrected `PeExp`, not the `let` case of partial_eval/mod.rs:179-181 as written (first row of "## Findings").
- PartialEvalNegate: part of the evaluator that follows the corrected `PeExp` (first row of "## Findings").
- PartialEvalAdd: part of the evaluator that follows the corrected `PeExp` (first row of "## Findings").
- PartialEvalPrim: part of the evaluator that follows the corrected `PeExp` (first row of "## Findings").
- PartialEvalExp: follows the corrected `PeExp`, which keeps a `let` whose body is a name not bound to a literal (first row of "## Findings").
- PartiallyEvaluate: built on the corrected `PeExp` (first row of "## Findings").
- Atomize: treats the operand of `-` like that of `+`, not as decomplify/mod.rs:96-105 does (second row of "## Findings").
- RcoBinds: keeps each binding in place, not the order of decomplify/mod.rs:173-185 (third row of "## Findings").
- RcoAtom: follows the corrected `Atomize` (second row of "## Findings").
- RcoExpr: follows the corrected `RcoExp`, not `RcoExpAsWritten` (second and third rows of "## Findings").
- RcoNegate: follows the corrected `RcoExp` (second row of "## Findings").
- RcoAdd: follows the corrected `RcoExp` (second row of "## Findings").
- RcoLet: follows the corrected `RcoBinds` (third row of "## Findings").
- DecomplifyProgram: built on the corrected `RcoExp` (second and third rows of "## Findings").
- HandleStmt: appends the corrected `StmtCode`, not x64_backend.rs:95-105 as written (fourth and fifth rows of "## Findings").
- SelectInstruction: appends the corrected `TailCode`, not `TailCodeAsWritten` (fourth and fifth rows of "## Findings").
- SelectReturn: appends the corrected `ReturnCode`, not `ReturnCodeAsWritten` (fourth row of "## Findings").
- SelectAll: selects with the corrected `TailCode` (fourth and fifth rows of "## Findings").
- SelectPlace: selects with the corrected `TailCode` (fourth and fifth rows of "## Findings").
- Patch: follows the corrected `Patched`, which also routes `add` and `sub` between variables through `r15` (last row of "## Findings").
- PatchInstructions: applies the corrected `Patched`, not `PatchedAsWritten` (last row of "## Findings").
- SelectPlacePatch: the corrected selection and patch (fourth to last rows of "## Findings").
- ScratchUse: stated over the corrected selection and patch (fourth to last rows of "## Findings").
- Transform: the corrected selection and patch (fourth to last rows of "## Findings").
- TransformFunction: built on the corrected `Transform` (fourth to last rows of "## Findings").
- IrToX64: built on the corrected `Transform` (fourth to last rows of "## Findings").
- The parser loops forever on a token list that ends in `(`, `+`, `-` or `[`, because `peek` keeps returning the last token. Such lists are excluded by `Parser.Parsable`.
- The lexer never produces `[` or `]` tokens; the parser's bracket cases are modelled as written.
- The lexer's newline rule is modelled as written: the column becomes 1 and then the step over the newline adds one. The first token on a later line therefore reports column 2 (`Lexer.NewlineThenToken`).
- Build and runtime code is not part of this model:
  - the build scripts (`x64_build.rs`, `project.py`);
  - the runtime library;
  - the older `src/` copies of the passes, which `compiler/` re-implements.

## Findings

| source | as written | input that shows it | evidently intended | confidence | as-written member | corrected member |
|---|---|---|---|---|---|---|
| compiler/src/frontend/partial_eval/mod.rs:179-181 | a `let` whose body evaluates to a name is replaced by whatever the environment binds that name to, dropping the bindings | `(let ([x 1] [y x]) y)` (value 1) becomes the free name `x` | keep the `let` unless the body folds to a literal, so that no free name appears | not executed | PartialEval.LetVarBodyEscapes | PartialEval.PeFreeVars |
| compiler/src/frontend/decomplify/mod.rs:96-105 | `rco_atom` binds a `(- a)` operand to a temporary without treating `a` | `(- (- (read)))` gives `(let ([tmp.0 (- (read))]) (- tmp.0))` | the `-` operand treated like a `+` operand, so that every operand is atomic | not executed | Decomplify.NegatedOperandStaysComplex | Decomplify.RcoExp |
| compiler/src/frontend/decomplify/mod.rs:173-185 | a `let` lists the bindings it left unchanged first and the expanded ones after them | `(let ([a (+ 1 (+ 2 3))] [b a]) b)` (value 6) binds `b` to `a` before `a` exists | each binding expanded in place, keeping binder order | not executed | Decomplify.LetBindingsReordered | Decomplify.RcoBindsKeepsOrder |
| compiler/src/backend/x64_backend.rs:99-100 | `(+ a a)` emits only `add dst, a`, without loading `a` into `dst` first | `x = 1; return (+ x x)` from `rax = 0` returns 1 | load the left operand first, `mov dst, l; add dst, r`, or only `add dst, l` when `dst` already holds `r` | not executed | X64Backend.EqualOperandsAsWritten | X64Backend.SelectCorrect |
| compiler/src/backend/x64_backend.rs:95-105 | a `+` whose right operand is its own target, with a different left operand, loads the left operand into the target first and then adds the target to itself | `(let ([x 5] [x (+ 1 x)]) x)` (value 6) uniquifies to `x.1 = 5; x.1 = (+ 1 x.1); return x.1`, whose code returns 2 | add the left operand to the target, which already holds the right one | not executed | X64Backend.SelfOperandAsWritten | X64Backend.SelectCorrect |
| compiler/src/backend/x64_backend.rs:241-243 | `patch` only routes a `mov` between two variables through `r15`; an `add` or `sub` between two variables is kept | `(let ([a (read)]) (let ([b (read)]) (let ([c (+ a b)]) c)))` selects `c := a; c += b`, a memory-to-memory `add` | every two-operand instruction between two variables goes through `r15` | not executed | X64Patch.AddBetweenVariablesAsWritten | X64Patch.Patched |
