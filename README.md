# BoSy boolean formulas and the state-symbolic encoding, in Dafny

BoSy is a bounded synthesizer: it turns a universal co-Büchi automaton and a
bound on the number of system states into a quantified boolean formula that
is satisfiable exactly when a system of that size exists. This project models
two parts of it.

- **The formula algebra** (`Sources/BoSy/Boolean.swift`).
  - `Formula` is a closed sum type. Its variants are literals, propositions,
    negation, the n-ary connectives (And, Or, Implication, Xnor), quantifiers
    (with the Skolem arity the encoding attaches), comparators, and
    applications of Skolem function symbols.
  - The smart constructors `&`, `|`, `-->`, `<->` and `!` fold literals and
    flatten a left conjunction or disjunction (`MkAnd` … `MkNot`).
  - `eval(assignment:)` is modelled as `Eval`. Its debug asserts become the
    precondition `Evaluable`.
  - The renaming and boundedness visitors are modelled as `Rename`, `Walk`
    and the `BoundednessChecker` class.
  - `order` compares two bit vectors.
  - `allBooleanAssignments` and `bitStringFromAssignment` are methods with
    their loops.
  - The tokenizer is modelled as the `Scanner` and `Lexer` classes; the
    recursive-descent parser as the `Parser` class.
  - A classical semantics `Holds` over total valuations gives the
    propositional fragment a meaning. A printer `Print` provides input text
    for the parser's laws.
- **The state-symbolic encoding** (`Sources/BoSy/StateSymbolicEncoding.swift`).
  - `getEncoding(forBound:)`, `requireTransition`, `explicitToSymbolic`,
    `tauNextStateAssertion` and the naming helpers.
  - Each loop of `getEncoding` is a method proved equal to a specification
    function. What the specification functions build is characterised by
    lemmas: the excluded codes, the initial-state clauses, one clause per
    automaton state, the comparator exactly on ranked transitions, and the
    quantifier prefix with its arities.
  - The boundedness assertion of `getEncoding` is proved as a lemma
    (`EncodingBounded`): the boundedness visitor accepts the quantified
    formula, as it stands before `removeComparable` runs, when the
    coding is `Lawful` and the automaton `Admissible`.

Modules: `Wrappers` (Option, Result), `Formulas`, `FormulaLaws`, `Visitors`,
`BitVectors`, `Assignments`, `Lexing`, `Parsing`, `ParserLaws`, `Printing`,
`Naming`, `StateSymbolic`, `EncodingLaws`, `EncodingScope`.

Observations the proofs make explicit:

- `&` is not associative on formulas. `(a & b) & c` flattens to one
  three-operand node. `a & (b & c)` keeps the nesting (`RightAndStaysNested`).
- The boundedness visitor removes a quantifier's variables when it leaves the
  quantifier's scope, even if an enclosing quantifier also binds them. A
  correctly bound formula that rebinds a name can therefore fail the check
  (`ShadowingFails`). Renaming can also unbind a variable (`RenameCanUnbind`).
- The lexer skips whitespace only after a token. Input that starts with a
  space is rejected (`LeadingSpace`, `LeadingSpaceRejected`).
- The parser never checks for the end of input. Whatever follows a complete
  expression is ignored, unless it starts with a binary operator or fails to
  lex (`TrailingIgnored`). For example, `a b` parses as `a`
  (`SpacedNameIgnored`), and so does `a)` (`ClosingIgnored`).
- The error `EndOfInput` is never produced. An unclosed parenthesis gives
  `Expect(RParen)`, and empty input gives `Unexpected`.

## Model

| member | source | states |
|---|---|---|
| Formulas.MkAnd | Sources/BoSy/Boolean.swift:15-37 | `lhs & rhs` keeps formulas well-formed, classical and simplified, and introduces no proposition beyond the operands' |
| Formulas.MkOr | Sources/BoSy/Boolean.swift:39-63 | `lhs \| rhs` keeps formulas well-formed, classical and simplified; its propositions are among the operands' |
| Formulas.MkImplies | Sources/BoSy/Boolean.swift:65-87 | `lhs --> rhs` keeps formulas well-formed, classical and simplified; its propositions are among the operands' |
| Formulas.MkXnor | Sources/BoSy/Boolean.swift:89-111 | `lhs <-> rhs` keeps formulas well-formed, classical and simplified; its propositions are among the operands' |
| Formulas.MkNot | Sources/BoSy/Boolean.swift:113-125 | `!op` keeps formulas well-formed, classical and simplified, with the same propositions |
| Formulas.Reduce | Sources/BoSy/Boolean.swift:198-205 | folding operands with `&` or `\|` keeps well-formedness, classicality and simplification, and adds no proposition |
| Formulas.Unassigned | Sources/BoSy/Boolean.swift:249-257 | the variables kept by the quantifier's filter are exactly those the assignment leaves open |
| Formulas.Eval | Sources/BoSy/Boolean.swift:155-370 | evaluation yields a well-formed, simplified formula mentioning only propositions the assignment leaves open |
| Formulas.EvalAll | Sources/BoSy/Boolean.swift:198-199 | the operands are evaluated one by one, in order |
| FormulaLaws.AndLiterals | Sources/BoSy/Boolean.swift:15-37 | `true` is neutral and `false` absorbing for `&`, on either side |
| FormulaLaws.OrLiterals | Sources/BoSy/Boolean.swift:39-63 | `true` is absorbing and `false` neutral for `\|`, on either side |
| FormulaLaws.ImpliesLiterals | Sources/BoSy/Boolean.swift:65-87 | `false --> x` is true, `true --> x` is `x`, `x --> true` is true and `x --> false` is `!x` |
| FormulaLaws.XnorLiterals | Sources/BoSy/Boolean.swift:89-111 | `<->` of two literals is their equality; a `true` side yields the other side, a `false` side yields its negation |
| FormulaLaws.NotLaws | Sources/BoSy/Boolean.swift:113-125 | `!` flips literals, and double negation cancels on simplified formulas |
| FormulaLaws.AndFlattensLeftOnly | Sources/BoSy/Boolean.swift:30-36 | a left conjunction is extended by the right operand; otherwise a new two-operand node is made |
| FormulaLaws.OrFlattensLeftOnly | Sources/BoSy/Boolean.swift:56-62 | a left disjunction is extended by the right operand; otherwise a new two-operand node is made |
| FormulaLaws.RightAndStaysNested | Sources/BoSy/Boolean.swift:15-37 | `(a & b) & c` and `a & (b & c)` build different formulas |
| FormulaLaws.ReduceShape | Sources/BoSy/Boolean.swift:198-205 | folding non-literal operands from the neutral literal gives that literal, the single operand, or one n-ary node over all operands |
| FormulaLaws.ReduceFromFirst | Sources/BoSy/Boolean.swift:198-205 | a fold started at the first operand builds the n-ary node of all operands |
| FormulaLaws.MkNotHolds | Sources/BoSy/Boolean.swift:113-125 | `!` negates the meaning |
| FormulaLaws.MkAndHolds | Sources/BoSy/Boolean.swift:15-37 | `&` means conjunction |
| FormulaLaws.MkOrHolds | Sources/BoSy/Boolean.swift:39-63 | `\|` means disjunction |
| FormulaLaws.MkImpliesHolds | Sources/BoSy/Boolean.swift:65-87 | `-->` means implication |
| FormulaLaws.MkXnorHolds | Sources/BoSy/Boolean.swift:89-111 | `<->` means equivalence |
| FormulaLaws.ReduceHolds | Sources/BoSy/Boolean.swift:198-205 | a fold with `&` holds iff the start and every operand hold; with `\|` iff the start or some operand holds |
| FormulaLaws.ConjoinAllHolds | Sources/BoSy/Boolean.swift:201-202 | `reduce(Literal.True, combine: &)` holds iff every operand holds |
| FormulaLaws.DisjoinAllHolds | Sources/BoSy/Boolean.swift:203-204 | `reduce(Literal.False, combine: \|)` holds iff some operand holds |
| FormulaLaws.ClassicalIsEvaluable | Sources/BoSy/Boolean.swift:198-212 | eval's asserts hold on every classical formula |
| FormulaLaws.EvalMeaning | Sources/BoSy/Boolean.swift:155-370 | partial evaluation preserves meaning: the result holds under `v` iff the input holds under `v` overridden by the assignment |
| FormulaLaws.NAryMeaning | Sources/BoSy/Boolean.swift:198-212 | evaluating an n-ary node preserves meaning once its operands' evaluation does |
| FormulaLaws.ConjunctionMeaning | Sources/BoSy/Boolean.swift:201-202 | evaluating a conjunction preserves meaning once its operands' evaluation does |
| FormulaLaws.DisjunctionMeaning | Sources/BoSy/Boolean.swift:203-204 | evaluating a disjunction preserves meaning once its operands' evaluation does |
| FormulaLaws.Coincidence | Sources/BoSy/Boolean.swift:155-157 | a formula's meaning depends only on its own propositions |
| FormulaLaws.ClosedIsLiteral | Sources/BoSy/Boolean.swift:15-125 | a simplified classical formula without propositions is a literal |
| FormulaLaws.EvalTotal | Sources/BoSy/Boolean.swift:321-326 | evaluating under an assignment that covers every proposition gives the literal of the formula's truth value |
| FormulaLaws.SimplifiedIsEvaluable | Sources/BoSy/Boolean.swift:198-212 | simplified formulas satisfy eval's asserts under the empty assignment |
| FormulaLaws.SimplifiedIsFixpoint | Sources/BoSy/Boolean.swift:155-157 | evaluating a simplified formula under the empty assignment returns it unchanged |
| FormulaLaws.UnassignedEmpty | Sources/BoSy/Boolean.swift:252 | the empty assignment filters out no quantified variable |
| FormulaLaws.SimplifyIdempotent | Sources/BoSy/Boolean.swift:155-157 | evaluating an evaluated formula again under the empty assignment changes nothing |
| FormulaLaws.EvalQuantifier | Sources/BoSy/Boolean.swift:249-257 | a quantifier whose variables are all assigned evaluates to its evaluated scope; otherwise it keeps its kind and arity, with exactly the open variables |
| FormulaLaws.EvalProposition | Sources/BoSy/Boolean.swift:321-326 | an assigned proposition evaluates to its literal, an unassigned one to itself |
| Visitors.Rename | Sources/BoSy/Boolean.swift:383-417 | the renamed formula's propositions are the image of the original's; classicality and well-formedness are kept |
| Visitors.RenameAll | Sources/BoSy/Boolean.swift:399-403 | the operands are renamed one by one, in order, and their propositions are the image of the original ones |
| Visitors.RenameIdentity | Sources/BoSy/Boolean.swift:383-417 | renaming by the identity returns the formula |
| Visitors.RenameCompose | Sources/BoSy/Boolean.swift:383-417 | renaming twice is renaming once by the composition |
| Visitors.RenameHolds | Sources/BoSy/Boolean.swift:383-417 | the renamed formula holds under `v` iff the original holds under `v` composed with the renaming |
| Visitors.Replace | Sources/BoSy/StateSymbolicEncoding.swift:48-59 | replacing nothing returns the formula; replacing by closed terms leaves exactly the propositions not replaced |
| Visitors.ReplaceAll | Sources/BoSy/StateSymbolicEncoding.swift:48-59 | replacement acts operand by operand, with the same two guarantees |
| Visitors.Walk | Sources/BoSy/Boolean.swift:419-440 | the check never adds a name to the bound set, and removes only names that some quantifier of the formula binds |
| Visitors.WalkAll | Sources/BoSy/Boolean.swift:428-430 | the same for operands visited left to right |
| Visitors.VisitLeaves | Sources/BoSy/Boolean.swift:419-440 | after a successful check the bound set is the starting set minus every quantified variable |
| Visitors.VisitAllLeaves | Sources/BoSy/Boolean.swift:428-430 | the same for a sequence of operands |
| Visitors.InScopeMonotone | Sources/BoSy/Boolean.swift:419-440 | binding more names never unbinds a proposition |
| Visitors.VisitSound | Sources/BoSy/Boolean.swift:419-440 | if the check passes, every proposition lies in the scope of a quantifier binding it |
| Visitors.VisitAllSound | Sources/BoSy/Boolean.swift:428-430 | if the check passes on a sequence, every operand is in scope |
| Visitors.VisitExact | Sources/BoSy/Boolean.swift:419-440 | without rebinding, the check passes iff every proposition is in scope, and then leaves the bound set as it found it |
| Visitors.VisitAllExact | Sources/BoSy/Boolean.swift:428-430 | the same for a sequence of operands |
| Visitors.ShadowingFails | Sources/BoSy/Boolean.swift:431-435 | a formula whose propositions are all bound still fails the check when an inner quantifier rebinds an outer variable |
| Visitors.RenameCanUnbind | Sources/BoSy/Boolean.swift:388-397 | renaming a bound variable's occurrence but not its binder makes a passing formula fail the check |
| Visitors.BoundednessChecker.constructor | Sources/BoSy/Boolean.swift:419-422 | a new visitor starts with nothing bound |
| Visitors.BoundednessChecker.Visit | Sources/BoSy/Boolean.swift:419-440 | the visitor succeeds exactly when the check does, and leaves the bound set the check computes |
| Visitors.VisitAllFailure | Sources/BoSy/Boolean.swift:428-430 | once one operand fails, the whole sequence fails |
| Visitors.CheckBounded | Sources/BoSy/StateSymbolicEncoding.swift:90-91 | a fresh visitor accepts a formula iff the check from the empty set passes, and then every proposition is bound |
| BitVectors.Pow2 | Sources/BoSy/StateSymbolicEncoding.swift:33 | `1 << n` is at least one; `ValueBound` shows it exceeds every value of `n` bits |
| BitVectors.Bits | Sources/BoSy/Boolean.swift:442-462 | the bits a valuation gives a vector of propositions, position by position |
| BitVectors.ValueBound | Sources/BoSy/Boolean.swift:442-462 | an n-bit vector's value is below `2^n` |
| BitVectors.Order | Sources/BoSy/Boolean.swift:442-462 | `order` builds a classical formula |
| BitVectors.OrderSingleBit | Sources/BoSy/Boolean.swift:457-461 | on one bit, strict `order` is `l & !r` and non-strict `order` is `l <-> r` |
| BitVectors.OrderStep | Sources/BoSy/Boolean.swift:451-456 | each step holds iff the left bit is greater here, or the bits are equal and the rest holds |
| BitVectors.ValueCompare | Sources/BoSy/Boolean.swift:442-462 | comparing values most significant bit first |
| BitVectors.OrderStrictMeansGreater | Sources/BoSy/Boolean.swift:442-462 | strict `order` holds iff the left vector's value exceeds the right one's |
| BitVectors.OrderNonStrictBits | Sources/BoSy/Boolean.swift:442-462 | non-strict `order` holds iff its bitwise comparison does |
| BitVectors.AtLeastOnPrefixMeaning | Sources/BoSy/Boolean.swift:457-461 | that comparison holds iff the vectors are equal or the left is greater on all bits but the last |
| BitVectors.OrderNonStrictMeaning | Sources/BoSy/Boolean.swift:442-462 | non-strict `order` holds iff the vectors agree on every bit, or the left is greater without its last bit |
| BitVectors.OrderNonStrictIsNotGreaterOrEqual | Sources/BoSy/Boolean.swift:460-461 | on `01` against `00` the left value is greater, yet non-strict `order` is false |
| BitVectors.OrderAtLeast | Sources/BoSy/Boolean.swift:442-462 | the corrected comparison builds a classical formula |
| BitVectors.ValueCompareAtLeast | Sources/BoSy/Boolean.swift:442-462 | comparing values non-strictly, most significant bit first |
| BitVectors.OrderAtLeastMeaning | Sources/BoSy/Boolean.swift:442-462 | the corrected comparison holds iff the left value is greater (strict) or at least as great (non-strict) |
| BitVectors.OrderAtLeastOnWitness | Sources/BoSy/Boolean.swift:460-461 | on `01` against `00` the corrected non-strict comparison holds |
| Assignments.ZeroAssignment | Sources/BoSy/Boolean.swift:465-466 | the zero assignment maps exactly the variables, all to false |
| Assignments.Doubled | Sources/BoSy/Boolean.swift:469-474 | one round doubles the list: each assignment, followed by its copy with the variable set to true |
| Assignments.Rounds | Sources/BoSy/Boolean.swift:464-477 | after `k` rounds there are `2^k` assignments |
| Assignments.AllBooleanAssignments | Sources/BoSy/Boolean.swift:464-477 | the method's two loops produce exactly the rounds over all variables |
| Assignments.RoundsEntry | Sources/BoSy/Boolean.swift:469-474 | entry `i` after round `k` is entry `i/2` after round `k-1`, with the variable set when `i` is odd |
| Assignments.RoundsKeys | Sources/BoSy/Boolean.swift:464-477 | every assignment assigns exactly the variables |
| Assignments.RoundsUntouched | Sources/BoSy/Boolean.swift:464-477 | variables not yet processed are still false |
| Assignments.RoundsEnumerate | Sources/BoSy/Boolean.swift:464-477 | for distinct variables, the processed prefix of entry `i` spells `i` in binary |
| Assignments.RoundStep | Sources/BoSy/Boolean.swift:469-474 | one round keeps the binary enumeration |
| Assignments.EnumerateStep | Sources/BoSy/Boolean.swift:469-474 | appending the round's variable as the least significant bit keeps the enumeration |
| Assignments.AllAssignmentsInBinaryOrder | Sources/BoSy/Boolean.swift:464-477 | for distinct variables, entry `i` assigns exactly the variables and spells `i` in binary, most significant first |
| Assignments.ValueInjective | Sources/BoSy/Boolean.swift:464-477 | equal-length bit vectors with equal values are equal |
| Assignments.AllAssignmentsComplete | Sources/BoSy/Boolean.swift:464-477 | every assignment of exactly the (distinct) variables occurs in the list |
| Assignments.SameBitsSameAssignment | Sources/BoSy/Boolean.swift:464-477 | two assignments of the same variables with the same bits are equal |
| Assignments.NameLessIrreflexive | Sources/BoSy/Boolean.swift:481 | the name order is irreflexive |
| Assignments.NameLessTransitive | Sources/BoSy/Boolean.swift:481 | the name order is transitive |
| Assignments.NameLessTotal | Sources/BoSy/Boolean.swift:481 | distinct names are ordered one way or the other |
| Assignments.LeastExists | Sources/BoSy/Boolean.swift:481 | a non-empty set of names has a least element |
| Assignments.LeastUnique | Sources/BoSy/Boolean.swift:481 | the least element is unique |
| Assignments.SortedKeys | Sources/BoSy/Boolean.swift:481 | the sorted keys are strictly increasing by name and are exactly the keys |
| Assignments.Encode | Sources/BoSy/Boolean.swift:482-487 | one character per key, `1` for true and `0` for false |
| Assignments.BitStringFromAssignment | Sources/BoSy/Boolean.swift:479-490 | the bit string is the encoding of the assignment along its keys sorted by name |
| Assignments.Decode | Sources/BoSy/Boolean.swift:479-490 | decoding a string along keys assigns exactly those keys |
| Assignments.DecodeEncode | Sources/BoSy/Boolean.swift:479-490 | decoding the encoding along distinct keys gives back each key's value |
| Assignments.SortedIsDistinct | Sources/BoSy/Boolean.swift:481 | strictly sorted names are distinct |
| Assignments.BitStringRoundTrip | Sources/BoSy/Boolean.swift:479-490 | the bit string determines the assignment: decoding it along the sorted keys returns the assignment |
| Lexing.Precedence | Sources/BoSy/Boolean.swift:550-561 | binary operators have precedence 2 or 3, and 3 exactly for conjunction |
| Lexing.IsWhitespace | Sources/BoSy/Boolean.swift:700 | defines the scalars `NSCharacterSet.whitespacesAndNewlines` contains, as a list of code points; `SkipWhitespace` and `LeadingSpaceRejected` state what the scanner does with them |
| Lexing.SkipWhitespace | Sources/BoSy/Boolean.swift:695-703 | skipping stops at the first non-whitespace character or the end, passing only whitespace |
| Lexing.IdentifierEnd | Sources/BoSy/Boolean.swift:721-735 | an identifier extends over identifier characters up to the first other character or the end |
| Lexing.MatchAny | Sources/BoSy/Boolean.swift:674-684 | a list of patterns matches iff one of them is a prefix at the position, and then the position moves forward |
| Lexing.Lex | Sources/BoSy/Boolean.swift:570-598 | a token ends within the input; `EOF` exactly at the end; other tokens consume input; the only error is `Unexpected` |
| Lexing.LexUnexpected | Sources/BoSy/Boolean.swift:594-595 | a character that starts no token is rejected with `Unexpected` |
| Lexing.LexIdentifier | Sources/BoSy/Boolean.swift:592-593 | a lower-case letter starts a proposition token spanning the identifier, followed by skipped whitespace |
| Lexing.LexName | Sources/BoSy/Boolean.swift:592-593 | a valid name followed by a non-identifier character (or the end) is read as exactly that proposition, and the scanner then stands after the white space behind it |
| Lexing.LexSymbol | Sources/BoSy/Boolean.swift:578-591 | each single-character symbol (`&` and `\|` not doubled) lexes to its token, and the scanner then stands after the white space behind it |
| Lexing.LeadingSpaceRejected | Sources/BoSy/Boolean.swift:570-598 | a leading space is rejected with `Unexpected` |
| Lexing.Scanner.constructor | Sources/BoSy/Boolean.swift:690-693 | a new scanner stands at the start of its input |
| Lexing.Scanner.Advance | Sources/BoSy/Boolean.swift:695-703 | the index moves by the offset and then past whitespace |
| Lexing.Scanner.MatchAndProceed | Sources/BoSy/Boolean.swift:705-711 | a match is reported iff the pattern is a prefix at the index, which then moves past it and any whitespace; otherwise nothing moves |
| Lexing.Scanner.MatchAnyAndProceed | Sources/BoSy/Boolean.swift:674-684 | the first matching pattern is consumed; with none the index stays |
| Lexing.Scanner.FirstScalarContained | Sources/BoSy/Boolean.swift:713-715 | reports whether the current character lies in the range |
| Lexing.Scanner.IsAtEnd | Sources/BoSy/Boolean.swift:717-719 | reports whether the index has reached the end |
| Lexing.Scanner.GetIdentifier | Sources/BoSy/Boolean.swift:721-735 | returns the identifier at the index and moves past it and any whitespace |
| Lexing.Lexer.constructor | Sources/BoSy/Boolean.swift:570-571 | the lexer reads from the given scanner |
| Lexing.Lexer.Next | Sources/BoSy/Boolean.swift:573-597 | `next()` succeeds iff `Lex` does, with the same token and new position, and fails with the same error |
| Parsing.Step | Sources/BoSy/Boolean.swift:619-620 | reading the next token stays within the input and, before the end, makes progress |
| Parsing.ParseExpr | Sources/BoSy/Boolean.swift:615-633 | a successful parse never moves backwards |
| Parsing.ParseOperators | Sources/BoSy/Boolean.swift:618-630 | the operator loop stops only at a token that is not a binary operator of at least the given precedence |
| Parsing.OperatorsStep | Sources/BoSy/Boolean.swift:618-630 | one loop iteration combines with `\|` or `&` according to the operator and makes progress |
| Parsing.OperatorsDone | Sources/BoSy/Boolean.swift:618 | the loop returns the left operand when the current token does not continue it |
| Parsing.OperatorsLexFailure | Sources/BoSy/Boolean.swift:620 | a lexing error after an operator is the parse's error |
| Parsing.OperatorsFailure | Sources/BoSy/Boolean.swift:621 | an error in the right operand is the parse's error |
| Parsing.ParseUnary | Sources/BoSy/Boolean.swift:635-643 | a successful unary parse consumes at least one token |
| Parsing.ParsePrimary | Sources/BoSy/Boolean.swift:645-666 | a successful primary parse consumes input; a token that starts no primary gives `Unexpected` |
| Parsing.Parser.constructor | Sources/BoSy/Boolean.swift:603-608 | the parser starts at `EOF` over the lexer's input |
| Parsing.Parser.Advance | Sources/BoSy/Boolean.swift:611 | `current = try lexer.next()` performs one step of the token source, or fails with its error |
| Parsing.Parser.Parse | Sources/BoSy/Boolean.swift:610-613 | `parse()` returns the functional parse of the input from the scanner's position |
| Parsing.Parser.ParseExpression | Sources/BoSy/Boolean.swift:615-633 | the method's result and final state are those of the functional expression parser |
| Parsing.Parser.ParseUnaryExpression | Sources/BoSy/Boolean.swift:635-643 | the method's result and final state are those of the functional unary parser |
| Parsing.Parser.ParsePrimaryExpression | Sources/BoSy/Boolean.swift:645-666 | the method's result and final state are those of the functional primary parser |
| Parsing.ParseFrom | Sources/BoSy/Boolean.swift:610-613 | defines `parse()`: read the first token, then one expression of any precedence, and nothing after it; `ParseFromFirst` and `TrailingIgnored` state the consequences |
| Parsing.ParseText | Sources/BoSy/Boolean.swift:738-743 | defines `BooleanUtils.parse` over the lexer of a string, with any error giving nothing; `ParsedIsNormal`, `PrintParse` and the other `Printing` lemmas state what it returns |
| Parsing.ParseString | Sources/BoSy/Boolean.swift:738-743 | `BooleanUtils.parse` returns the parsed formula, or nothing on any error |
| ParserLaws.ExprNormal | Sources/BoSy/Boolean.swift:615-633 | what an expression parse builds is classical and simplified |
| ParserLaws.OperatorsNormal | Sources/BoSy/Boolean.swift:618-630 | the operator loop keeps its left operand classical and simplified |
| ParserLaws.UnaryNormal | Sources/BoSy/Boolean.swift:635-643 | what a unary parse builds is classical and simplified |
| ParserLaws.PrimaryNormal | Sources/BoSy/Boolean.swift:645-666 | what a primary parse builds is classical and simplified |
| ParserLaws.ParsedIsNormal | Sources/BoSy/Boolean.swift:738-743 | every parsed formula is classical, simplified, and a fixpoint of evaluation under the empty assignment |
| ParserLaws.PrintableIsEvaluable | Sources/BoSy/Boolean.swift:155-157 | printable formulas are classical and satisfy eval's asserts |
| ParserLaws.UnitParse | Sources/BoSy/Boolean.swift:635-666 | the tokens of a printable formula parse as a unary expression to its evaluated form |
| ParserLaws.ParenParse | Sources/BoSy/Boolean.swift:655-663 | a parenthesised n-ary formula parses to its evaluated form |
| ParserLaws.ListParse | Sources/BoSy/Boolean.swift:615-633 | an operator chain of one connective parses to the left fold of its evaluated operands |
| ParserLaws.RestParse | Sources/BoSy/Boolean.swift:618-630 | the remaining operators and operands of a chain fold onto the accumulated left operand |
| ParserLaws.OperandAlone | Sources/BoSy/Boolean.swift:615-633 | an operand followed by no operator of enough precedence parses to its evaluated form |
| ParserLaws.ChainSteps | Sources/BoSy/Boolean.swift:615-633 | two operators in a row group by precedence: the tighter one binds first, equal ones associate to the left |
| ParserLaws.ChainParse | Sources/BoSy/Boolean.swift:615-633 | the tokens of `x op y op z` parse to that grouping of the evaluated operands |
| ParserLaws.MissingParen | Sources/BoSy/Boolean.swift:655-663 | an opening parenthesis whose expression is not followed by `)` gives `Expect(RParen)` |
| Printing.ToksShape | Sources/BoSy/Boolean.swift:570-598 | the tokens of a printed formula start with an operand, end with one, and no two of them merge when spelled |
| Printing.LexOne | Sources/BoSy/Boolean.swift:570-598 | a token's spelling followed by a character that cannot extend it lexes back to that token, ending after the white space behind it |
| Printing.TokensProgressive | Sources/BoSy/Boolean.swift:570-598 | the lexer never moves backwards and never stalls before the end |
| Printing.TokensLexSpelled | Sources/BoSy/Boolean.swift:570-598 | wherever a token is spelled and not run into by the next character, the lexer reads it and the white space behind it |
| Printing.SpacedRead | Sources/BoSy/Boolean.swift:570-598 | lexing the spelling of a token sequence reads back exactly those tokens, and stops after the white space behind the last one |
| Printing.SpellText | Sources/BoSy/Boolean.swift:570-598 | the same for a whole input, which ends with `EOF` |
| Printing.LexEnd | Sources/BoSy/Boolean.swift:574-576 | at the end of input the lexer returns `EOF` |
| Printing.LexClose | Sources/BoSy/Boolean.swift:580-581 | `)` lexes to `RParen` |
| Printing.ParseFromFirst | Sources/BoSy/Boolean.swift:610-613 | `parse()` reads the first token and parses an expression of any precedence |
| Printing.PrintPrefixParse | Sources/BoSy/Boolean.swift:738-743 | a printed formula, followed by text the parser leaves unread (`Ignorable`), parses to the formula's evaluated form |
| Printing.PrintParse | Sources/BoSy/Boolean.swift:738-743 | parsing a printed formula gives the formula's evaluated form |
| Printing.PrintParseMeaning | Sources/BoSy/Boolean.swift:738-743 | parsing a printed formula preserves its meaning under every valuation |
| Printing.ReparseIsIdentity | Sources/BoSy/Boolean.swift:738-743 | a simplified printable formula is parsed back to itself |
| Printing.TrailingIgnored | Sources/BoSy/Boolean.swift:610-618 | text after a complete expression is ignored when it does not run into the last token and its first token lexes and is not `&` or `\|`; `parse()` never checks for the end |
| Printing.ClosingIgnored | Sources/BoSy/Boolean.swift:610-618 | anything after a surplus `)` is ignored |
| Printing.SpacedNameIgnored | Sources/BoSy/Boolean.swift:610-618 | `a b` parses as `a`: the second name is never read |
| Printing.PrintDoubleNot | Sources/BoSy/Boolean.swift:635-643 | a double negation prints as `~~` before the formula |
| Printing.DoubleNegation | Sources/BoSy/Boolean.swift:635-643 | a double negation parses to the same formula as the formula itself |
| Printing.ChainSpelling | Sources/BoSy/Boolean.swift:570-598 | the tokens of `x op y op z` spell as the printed operands with the operator symbols between them |
| Printing.ChainText | Sources/BoSy/Boolean.swift:738-743 | the text `x op y op z` parses to the precedence grouping of the evaluated operands |
| Printing.PrintName | Sources/BoSy/Boolean.swift:721-735 | a proposition with a valid name prints as its name |
| Printing.ConjunctionBindsTighter | Sources/BoSy/Boolean.swift:550-561 | `a\|b&c` parses as `a \| (b & c)` |
| Printing.DisjunctionBindsLooser | Sources/BoSy/Boolean.swift:550-561 | `a&b\|c` parses as `(a & b) \| c` |
| Printing.ConjunctionLeftAssociative | Sources/BoSy/Boolean.swift:615-633 | `a&b&c` parses to one three-operand conjunction |
| Printing.DisjunctionLeftAssociative | Sources/BoSy/Boolean.swift:615-633 | `a\|b\|c` parses to one three-operand disjunction |
| Printing.UnclosedParen | Sources/BoSy/Boolean.swift:655-663 | `(` followed by a complete formula fails with `Expect(RParen)`, so `parse` returns nothing |
| Printing.UnknownCharacter | Sources/BoSy/Boolean.swift:594-595 | input starting with a character that begins no token fails with `Unexpected` |
| Printing.LeadingSpace | Sources/BoSy/Boolean.swift:695-703 | input starting with a space fails with `Unexpected` |
| Printing.EmptyInput | Sources/BoSy/Boolean.swift:663-664 | empty input fails with `Unexpected`, not `EndOfInput` |
| Naming.Decimal | Sources/BoSy/StateSymbolicEncoding.swift:25-27 | an index is rendered as decimal digits, without a leading zero |
| Naming.DecimalRoundTrip | Sources/BoSy/StateSymbolicEncoding.swift:25-27 | reading the rendered digits back gives the index |
| Naming.DecimalInjective | Sources/BoSy/StateSymbolicEncoding.swift:25-27 | different indices render differently |
| Naming.IndexedInjective | Sources/BoSy/StateSymbolicEncoding.swift:158-160 | within one family, different bits get different names |
| Naming.StateFamiliesDisjoint | Sources/BoSy/StateSymbolicEncoding.swift:25-26 | state bits `s…` and next-state bits `sp…` never share a name |
| Naming.AnnotationNamesDistinct | Sources/BoSy/StateSymbolicEncoding.swift:142-156 | `l_q` and `ls_q` determine `q`, differ from each other, and differ from every state, next-state and transition bit name |
| StateSymbolic.LambdaProposition | Sources/BoSy/StateSymbolicEncoding.swift:142-144 | defines the proposition `l_q`; `AnnotationNamesDistinct` shows the name determines `q` |
| StateSymbolic.Lambda | Sources/BoSy/StateSymbolicEncoding.swift:146-148 | defines `l_q` applied to the given state bits |
| StateSymbolic.LambdaSharpProposition | Sources/BoSy/StateSymbolicEncoding.swift:150-152 | defines the proposition `ls_q`, distinct from every `l_` name (`AnnotationNamesDistinct`) |
| StateSymbolic.LambdaSharp | Sources/BoSy/StateSymbolicEncoding.swift:154-156 | defines `ls_q` applied to the given state bits |
| StateSymbolic.Tau | Sources/BoSy/StateSymbolicEncoding.swift:158-160 | defines the proposition `t_i` of transition-function bit `i`; `IndexedInjective` shows different bits get different names |
| StateSymbolic.Explicit | Sources/BoSy/StateSymbolicEncoding.swift:119-131 | specifies `explicitToSymbolic`: the conjunction of the bit literals of the code; `ExplicitShape` and `ExplicitMeaning` state its form and meaning |
| StateSymbolic.TauAssertion | Sources/BoSy/StateSymbolicEncoding.swift:133-140 | specifies `tauNextStateAssertion`; `TauAssertionShape` states its form |
| StateSymbolic.RequireTransition | Sources/BoSy/StateSymbolicEncoding.swift:98-117 | specifies `requireTransition`; `RequireTransitionShape` and `ComparatorExactlyWhenRanked` state its form and when it compares rankings |
| StateSymbolic.UnusedPreconditions | Sources/BoSy/StateSymbolicEncoding.swift:33-35 | specifies the preconditions of the unused-code loop; `UnusedPreconditionsMeaning` states what they exclude |
| StateSymbolic.UnusedClauses | Sources/BoSy/StateSymbolicEncoding.swift:33-36 | specifies the transition-function clauses of the unused-code loop; `UnusedClausesExactly` characterises them |
| StateSymbolic.InitialClauses | Sources/BoSy/StateSymbolicEncoding.swift:39-43 | specifies the initial-state clauses; `InitialClausesExactly` characterises them |
| StateSymbolic.GuardedTransition | Sources/BoSy/StateSymbolicEncoding.swift:66-73 | specifies one transition's conjunct; `GuardedCondition` is the loop body proved against it |
| StateSymbolic.StateClause | Sources/BoSy/StateSymbolicEncoding.swift:45-78 | specifies the clause of one automaton state; `StateClausesExactly` characterises the clauses of all states |
| StateSymbolic.Matrix | Sources/BoSy/StateSymbolicEncoding.swift:36-78 | specifies the matrix: the unused-code clauses, then the initial-state clauses, then the state clauses; `MatrixClosed` shows every entry is bound |
| StateSymbolic.Body | Sources/BoSy/StateSymbolicEncoding.swift:80 | specifies the preconditions implying the matrix; `UniversalLayer` places it under the universal quantifier |
| StateSymbolic.Quantified | Sources/BoSy/StateSymbolicEncoding.swift:82-88 | specifies the quantified encoding before comparators are removed; the layer lemmas state its quantifier prefix and `EncodingBounded` its boundedness |
| StateSymbolic.ExplicitToSymbolic | Sources/BoSy/StateSymbolicEncoding.swift:119-131 | the loop builds the conjunction of the code's bit literals |
| StateSymbolic.TauNextStateAssertion | Sources/BoSy/StateSymbolicEncoding.swift:133-140 | the loop builds the conjunction of `s <-> tau` over the paired bits |
| StateSymbolic.UnusedEncodings | Sources/BoSy/StateSymbolicEncoding.swift:32-37 | the loop over the unused codes builds the excluding preconditions and transition clauses |
| StateSymbolic.InitialConstraints | Sources/BoSy/StateSymbolicEncoding.swift:39-43 | the loop builds one clause per initial state |
| StateSymbolic.GuardedCondition | Sources/BoSy/StateSymbolicEncoding.swift:66-73 | a transition contributes its condition alone under a `true` guard, and the guard with outputs replaced implying the condition otherwise |
| StateSymbolic.StateConstraint | Sources/BoSy/StateSymbolicEncoding.swift:45-78 | the body of the state loop builds the clause of one automaton state, or none without outgoing transitions |
| StateSymbolic.StateConstraints | Sources/BoSy/StateSymbolicEncoding.swift:45-78 | the state loop builds the clauses of all automaton states, in order |
| StateSymbolic.GetEncoding | Sources/BoSy/StateSymbolicEncoding.swift:18-96 | `getEncoding` returns the comparator-free form of the quantified encoding |
| EncodingLaws.ExplicitShape | Sources/BoSy/StateSymbolicEncoding.swift:119-131 | a code of no bits gives `true`, of one bit that bit's literal, of more bits one conjunction whose operand `i` is the atom of bit `i` or its negation as the code says |
| EncodingLaws.ExplicitNoBits | Sources/BoSy/StateSymbolicEncoding.swift:119-131 | with zero bits the encoding of any value is `true` |
| EncodingLaws.ExplicitMeaning | Sources/BoSy/StateSymbolicEncoding.swift:119-131 | without parameters the encoding is classical and holds exactly when the bit propositions spell the code |
| EncodingLaws.TauAssertionShape | Sources/BoSy/StateSymbolicEncoding.swift:133-140 | the assertion is `true`, a single `<->`, or one conjunction whose operand `i` is `states[i] <-> taus[i]` |
| EncodingLaws.TauAssertionNoComparator | Sources/BoSy/StateSymbolicEncoding.swift:133-140 | the tau assertion contains no comparator |
| EncodingLaws.RequireTransitionShape | Sources/BoSy/StateSymbolicEncoding.swift:98-117 | the tau assertion implies `l_q'` on the next state, conjoined with the rank comparison when the transition is ranked |
| EncodingLaws.ComparatorExactlyWhenRanked | Sources/BoSy/StateSymbolicEncoding.swift:99 | a comparator occurs iff both states are in the same rejecting component |
| EncodingLaws.UnusedPreconditionsCount | Sources/BoSy/StateSymbolicEncoding.swift:33-35 | two preconditions per unused code, and none when there is none |
| EncodingLaws.UnusedPreconditionsClassical | Sources/BoSy/StateSymbolicEncoding.swift:34-35 | without parameters the excluding preconditions are classical |
| EncodingLaws.UnusedPreconditionsMeaning | Sources/BoSy/StateSymbolicEncoding.swift:32-37 | the preconditions hold iff neither the state nor the next state spells an unused code |
| EncodingLaws.PreconditionsExcludeUnused | Sources/BoSy/StateSymbolicEncoding.swift:32-37 | for `getEncoding`, there are `2(2^n - bound)` classical preconditions, which hold iff both states encode a value below the bound |
| EncodingLaws.UnusedClausesExactly | Sources/BoSy/StateSymbolicEncoding.swift:36 | one clause per unused code, and a clause is there iff it negates the transition function's encoding of an unused code |
| EncodingLaws.InitialClausesExactly | Sources/BoSy/StateSymbolicEncoding.swift:39-43 | clause `k` says state 0 implies `l_q` for the `k`-th initial state |
| EncodingLaws.OutputReplacement | Sources/BoSy/StateSymbolicEncoding.swift:48-56 | outputs become applications to the state bits (and the inputs under Mealy); other propositions stay; the outputs disappear from the propositions |
| EncodingLaws.StateClausesExactly | Sources/BoSy/StateSymbolicEncoding.swift:45-78 | there is at most one clause per state, and a clause is there iff it belongs to a state with outgoing transitions |
| EncodingLaws.StateClausesInclude | Sources/BoSy/StateSymbolicEncoding.swift:45-78 | every state with outgoing transitions contributes its clause, and there are no more clauses than states |
| EncodingLaws.StateClausesOnly | Sources/BoSy/StateSymbolicEncoding.swift:45-78 | every clause belongs to a state with outgoing transitions |
| EncodingLaws.AnnotationLayer | Sources/BoSy/StateSymbolicEncoding.swift:88 | the outer quantifier is existential over the `l_` and then the `ls_` names, with the state width as arity |
| EncodingLaws.TauLayer | Sources/BoSy/StateSymbolicEncoding.swift:87 | next comes the existential over the transition function bits, with arity the state width plus the inputs |
| EncodingLaws.OutputLayer | Sources/BoSy/StateSymbolicEncoding.swift:86 | next comes the existential over the outputs, with arity the state width plus the inputs under Mealy and the state width under Moore |
| EncodingLaws.UniversalLayer | Sources/BoSy/StateSymbolicEncoding.swift:80-85 | innermost, the universal over the state, next-state and input bits scopes the preconditions implying the matrix |
| EncodingScope.ClosedWalk | Sources/BoSy/Boolean.swift:419-440 | the check passes on a quantifier-free formula whose propositions are bound, leaving the bound set unchanged |
| EncodingScope.ExplicitClosed | Sources/BoSy/StateSymbolicEncoding.swift:119-131 | a code's encoding is quantifier-free and bound once its bit names and parameters are bound |
| EncodingScope.TauAssertionClosed | Sources/BoSy/StateSymbolicEncoding.swift:133-140 | the tau assertion is quantifier-free and bound once the state, next-state, transition-function and input names are bound |
| EncodingScope.RequireTransitionClosed | Sources/BoSy/StateSymbolicEncoding.swift:98-117 | a transition requirement is quantifier-free and bound when its tau assertion and its `l_q'` term are |
| EncodingScope.TransitionConditionClosed | Sources/BoSy/StateSymbolicEncoding.swift:67 | the condition built for a transition is quantifier-free and bound |
| EncodingScope.ReplaceClosed | Sources/BoSy/StateSymbolicEncoding.swift:48-56 | after output replacement, a classical guard over the inputs and outputs is quantifier-free and bound |
| EncodingScope.GuardedTransitionClosed | Sources/BoSy/StateSymbolicEncoding.swift:66-73 | one transition's conjunct, guarded or not, is quantifier-free and bound when its target is a state and its guard is over inputs and outputs |
| EncodingScope.GuardedTransitionsClosed | Sources/BoSy/StateSymbolicEncoding.swift:66-73 | every transition conjunct of an admissible automaton is quantifier-free and bound |
| EncodingScope.StateClauseClosed | Sources/BoSy/StateSymbolicEncoding.swift:74-77 | one state's clause is quantifier-free and bound |
| EncodingScope.StateClausesClosed | Sources/BoSy/StateSymbolicEncoding.swift:45-78 | every state clause is quantifier-free and bound |
| EncodingScope.InitialClausesClosed | Sources/BoSy/StateSymbolicEncoding.swift:39-43 | every initial clause is quantifier-free and bound |
| EncodingScope.UnusedClausesClosed | Sources/BoSy/StateSymbolicEncoding.swift:36 | every unused-code clause is quantifier-free and bound |
| EncodingScope.PreconditionsClosed | Sources/BoSy/StateSymbolicEncoding.swift:34-35 | every precondition is quantifier-free and bound |
| EncodingScope.MatrixClosed | Sources/BoSy/StateSymbolicEncoding.swift:36-78 | every matrix entry is quantifier-free and bound |
| EncodingScope.BodyClosed | Sources/BoSy/StateSymbolicEncoding.swift:80 | the formula under the quantifiers is quantifier-free and bound |
| EncodingScope.LayersCover | Sources/BoSy/StateSymbolicEncoding.swift:82-88 | the four quantifiers together bind every name the body may use |
| EncodingScope.EncodingBounded | Sources/BoSy/StateSymbolicEncoding.swift:90-91 | for an admissible automaton the boundedness check passes on the whole encoding from the empty set |

## Left out

- `solve(forBound:)` and `extractSolution()` are not modelled. They log, print the formula in TPTP and run an external prover.
- `Encoding.swift` is not part of this model. It holds the other encodings and the protocol `BoSyEncoding`.
- The `description` renderings and the commented-out pretty printer are not modelled. The printer `Print` serves only as input text for the parser's laws.
- `hashValue` and `Equatable` are not modelled; datatype equality plays their role.
- `numBitsNeeded` and `binaryFrom` are not in the files modelled. They are the fields of a `BitCoding` parameter, and the only property used is that `binaryFrom(value, bits:)` has `bits` characters (`Lawful`).
- The SCC queries `isStateInNonRejectingSCC` and `isInSameSCC` of `CoBüchiAutomaton` are function fields of the automaton.
- `RemoveComparableVisitor` is not in the files modelled; `GetEncoding` takes it as a parameter.
- `ReplacingPropositionVisitor` is modelled generically as `Replace` with a rule from names to optional formulas.
- `FunctionApplication` and `arity` are used by the encoding but are not in the files modelled. They become the `Application` variant and the quantifier's `arity` field. Evaluation leaves an application unchanged, renaming renames its symbol and arguments, and the boundedness check requires its symbol and arguments to be bound.
- Comparator endpoints are formulas here. The encoding passes function applications as endpoints, so they do not fit the declared proposition type. `Rename` renames them as formulas.
- `output(_:forState:)` is never called and is not modelled.
- Automaton states are their interpolated names (`string`). `states` and `initialStates` are sequences in the order of iteration and may repeat a state. Outgoing transitions are a sequence in the order of iteration, not a dictionary.
- `NSCharacterSet.whitespacesAndNewlines` is modelled by a fixed predicate (`IsWhitespace`): U+0009 to U+000D, U+0020, U+0085, U+00A0, U+1680, U+2000 to U+200A, U+2028, U+2029, U+202F, U+205F and U+3000.
- The scanner works on characters, not on Unicode scalar views.
- Swift's `1 << numBits` overflow is not modelled; `Pow2` is unbounded.
- The asserts and preconditions that the model turns into preconditions or lemmas:
  - eval's operand-count and comparator asserts are `Evaluable`;
  - `tauNextStateAssertion`'s count assert is a precondition;
  - the assert that a safety condition comes with outgoing transitions (`StateSymbolicEncoding.swift:62`) is `SafetyHasTransitions`;
  - `Proposition.init`'s `precondition(!name.isEmpty)` (`Boolean.swift:305`), which traps in release builds too, is required of the encoder's inputs and outputs;
  - the boundedness assert (`StateSymbolicEncoding.swift:90-91`) is the lemma `EncodingBounded`.
- GetEncoding: the result is stated up to the comparator-removing parameter, and the boundedness assert is not part of its contract. `EncodingBounded` proves that assert under two assumptions: `Lawful`, and an automaton whose initial states and targets are states and whose guards and safety conditions are classical over the inputs and outputs.
- GetEncoding: requires `bound <= 2^numBitsNeeded(bound)`. The source traps on a reversed range otherwise, and the bit-coding function is a parameter.
- Formulas.Eval: its meaning is stated only for the classical fragment (`EvalMeaning`). Quantifiers, comparators and applications have no classical semantics here.
- BitVectors.Order: non-strict `order` is not claimed to mean `≥`. `OrderNonStrictMeaning` states what it does mean.
- Assignments.BitStringFromAssignment: the keys are sorted by the scalar values of their names (`NameLess`). Swift's `<` on strings compares canonical Unicode forms; the two orders agree on ASCII names, and the model does not claim more.
- Assignments.SortedKeys: sorted by `NameLess`, with the same proviso as `BitStringFromAssignment`.
- Visitors.Walk: the boundedness check is modelled as a function that fails where the visitor's assert would fire. `BoundednessChecker.Visit` is the class form.

## Findings

| source | as written | input that shows it | evidently intended | confidence | as-written member | corrected member |
|---|---|---|---|---|---|---|
| Sources/BoSy/Boolean.swift:460-461 | non-strict `order` decides the last bit by `equiv` alone | left bits `01`, right bits `00`: the left value is greater, yet the formula is false | the last bit decided by `greater \| equiv`, so that non-strict means `≥` | medium, not executed | BitVectors.OrderNonStrictIsNotGreaterOrEqual | BitVectors.OrderAtLeastMeaning |
