# Formula evaluator and answer grading

This project models the answer checker of an online maths-problem site.

The core is the formula evaluator `fpeval` (fpevaluator.py). It reads a formula such as `2*sin(x)^2 - 1` with
an ordered-choice grammar: tokens, then an `atom`, `parenexpr`, `power`, `factor`, `term` and `expr`, then an
`assignment` or a `statement`. Each matched run of operands and operators is folded into one symbolic value by a
reduction action (`_calc_tokens` and its uses `_as_sum`, `_as_term` and `_as_power`, plus `_as_factor` and
`_as_parenexpr`).

The site grades a submission by evaluating it and the problem's stored answer and comparing the two values
(`Prob.check_answer`). On a pass it records the problem number in the user's list of passed problems
(`add_to_json_column`, and the pass-recording branch of `submit`), both in webapp.py.

## Layout

| file | module | what it holds |
|---|---|---|
| wrappers.dfy | Wrappers | `Option` and `Result` |
| lexer.dfy | Lexer | the literal languages, the longest-match matchers, the tokenizer |
| lexer_facts.dfy | LexerFacts | which literals lex, how much they consume, and that lexing ignores the tail |
| fold.dfy | Fold | the value trees and the generic fold `_calc_tokens` with its uses |
| fold_facts.dfy | FoldFacts | left folds for `+ -` and `* /`, right fold for `^`, sign parity |
| parser.dfy | Parser | the grammar as mutually recursive parse functions, and `fpeval` |
| parser_facts.dfy | ParserFacts | the trees productions build, ordered choice with fallback, faults, tail-ignoring |
| chain_facts.dfy | ChainFacts | what the three repeating productions read from whole runs of tokens, how a fault leaves them, and precedence between them |
| eval_facts.dfy | EvalFacts | what `fpeval` returns for whole texts: parse errors, unknown calls, blanks between tokens |
| interpret.dfy | Interpret | an integer reading of trees that belongs to this model, not to the original |
| grading.dfy | Grading | `check_answer`, `add_to_json_column` and the pass-recording part of `submit` with its problem lookup |
| grading_facts.dfy | GradingFacts | properties of grading and of the passed-problem list |

## How the original is modelled

- **Lexing before parsing.** The grammar's parser skips whitespace and matches terminals straight on the text.
  - The model splits the text into tokens first. This gives the same tokens at every position.
  - Before each token a run of blanks (space, tab, newline, carriage return) is skipped, as the parser's default whitespace skipping does.
  - The token classes differ in their first character, except float and integer, which are both digit-led.
  - `atom` tries the float pattern before the integer pattern, and `Lexer.Pick` does the same.
- **Matchers.** Each regular expression and the identifier `Word` is stated as a language, for example `Lexer.FloatIn`. The matcher returns the longest prefix in that language. Python's first match and the longest match coincide for these patterns.
- **Three-way parse results.** A rule gives `Ok(value, rest)`, `NoMatch` or `Fault(error)`.
  - `NoMatch` is the parse exception that makes an ordered choice try its next alternative.
  - `Fault` is the `AttributeError` raised by `getattr(sympy, name)` for an unknown function name. It is not a parse exception, so it ends the whole evaluation even inside an alternative that would otherwise be abandoned.
- **Values are trees.** Combinators are tree constructors, and the fold seeds stay visible: `5` evaluates to `0 + 1 * 5 ^ 1`.
  - Floats are kept as their text.
  - The set of callable function names is the parameter `known`.
  - Value equality in grading is the parameter `same`.

## Behaviour worth noting

- `1e5` evaluates to the integer 1. An integer is never followed by an exponent, so the text lexes as the integer `1` and the name `e5`. `fpeval` calls `parse_string` without `parse_all` (fpevaluator.py:98-99), so the statement `1` is accepted and `e5` is never read (`ParserFacts.ExponentWithoutPointIsIgnored`).
- An evaluation error while grading is not caught. `check_answer` (webapp.py:131-133) evaluates both sides outside any handler, so the error propagates out of `submit` instead of counting as a wrong answer (`Grading.CheckAnswer`, `Grading.Submit`, `GradingFacts.SubmittedErrorFirst`).
- An assignment never passes. It evaluates to a group of its name and value, a fresh object each time, and such groups compare by identity (`GradingFacts.AssignmentNeverPasses`).

## Model

| member | source | states |
|---|---|---|
| Lexer.MatchInt | fpevaluator.py:65 | the integer matcher consumes the longest prefix that is `0` or a nonzero digit followed by digits, and something is consumed iff the text starts with a digit |
| Lexer.MatchExponent | fpevaluator.py:63-64 | the exponent suffix `[eE][+-]?\d+` is matched longest, or not at all |
| Lexer.MatchFracExp | fpevaluator.py:63-64 | after the point, the fraction digits and the optional exponent are matched longest; with no integer part at least one fraction digit is required |
| Lexer.MatchFloat | fpevaluator.py:63-64 | the float matcher consumes the longest prefix of the float language (a point with digits on at least one side, then an optional exponent), or reports that no prefix is a float |
| Lexer.MatchIdent | fpevaluator.py:62 | the identifier matcher consumes the longest prefix that is an identifier start followed by identifier body characters |
| Lexer.Pick | fpevaluator.py:81 | the ordered choice among the matchers' findings (float, then integer, then identifier, then operator) leaves a proper suffix of the text |
| Lexer.LexAt | fpevaluator.py:60-67 | one token is read from the front and the rest is a proper suffix of the text |
| Lexer.LexAtSound | fpevaluator.py:60-67 | each token is a word of its class's language and is exactly the text it was read from; a float token holds a point; an integer token is produced only where no float starts; lexing stops at the end or at a character that starts no token |
| Lexer.FloatHasPoint | fpevaluator.py:63-64 | every float literal contains a decimal point |
| Lexer.Lex | fpevaluator.py:81 | one token is read after the leading blanks, and the rest is a proper suffix of the text |
| Lexer.Tokenize | fpevaluator.py:98-99 | the token stream `fpeval` parses; its meaning is stated by `LexerFacts.TokenizeCons`, `LexerFacts.BlanksSkipped` and `LexerFacts.TokenizeWellFormed` |
| LexerFacts.FloatChars | fpevaluator.py:63-64 | a float literal is written only with digits, `.`, `e`, `E`, `+` and `-` |
| LexerFacts.InertEndsLiteral | fpevaluator.py:62-65 | no literal extends over a character that can occur in no token |
| LexerFacts.FloatMatchStable | fpevaluator.py:63-64 | appending text that starts with such a character does not change the float match |
| LexerFacts.IntMatchStable | fpevaluator.py:65 | appending text that starts with such a character does not change the integer match |
| LexerFacts.IdentMatchStable | fpevaluator.py:62 | appending text that starts with such a character does not change the identifier match |
| LexerFacts.LexStable | fpevaluator.py:81 | reading one token never looks at such a character after it |
| LexerFacts.TokenizeIgnoresTail | fpevaluator.py:98-99 | the token sequence of a text is unchanged by anything appended after such a character |
| LexerFacts.LeadingZeroStandsAlone | fpevaluator.py:65 | at a leading `0` followed by digits only the `0` is consumed, so a leading-zero run never becomes one integer |
| LexerFacts.ExponentNeedsPoint | fpevaluator.py:63-65 | an integer followed by `e` or `E` lexes as the integer alone: the exponent is reachable only after a point |
| LexerFacts.FloatIsOneToken | fpevaluator.py:81 | a float literal, such as `1.5`, is one float token and not an integer followed by leftover text |
| LexerFacts.FloatLexesWhole | fpevaluator.py:66 | a whole float literal is read in full as one float token |
| LexerFacts.Show | fpevaluator.py:65 | the decimal rendering of a natural number is an integer literal whose digit value is that number |
| LexerFacts.WholeIntLexes | fpevaluator.py:67 | a whole integer literal is read as one integer token |
| LexerFacts.IdentLexes | fpevaluator.py:62 | a whole identifier is read as one name |
| LexerFacts.IdentLexesAlone | fpevaluator.py:62 | a whole identifier tokenizes to that single name |
| LexerFacts.IntegerRoundTrip | fpevaluator.py:65-67 | every natural number written in decimal is read back as one integer token of that value |
| LexerFacts.TokenizeWellFormed | fpevaluator.py:60-67 | every token the lexer produces is a word of its class's language |
| LexerFacts.IntStopsAt | fpevaluator.py:65 | an integer followed by a character that is neither a digit nor a point is read as that integer alone, and the character starts the rest |
| LexerFacts.IdentStopsAt | fpevaluator.py:62 | an identifier followed by a character that cannot continue it is read as that name alone, and the character starts the rest |
| LexerFacts.OpLexes | fpevaluator.py:60-61 | an operator or bracket character is read as that single operator token |
| LexerFacts.TokenizeCons | fpevaluator.py:98-99 | the token stream is the token read at the front followed by the stream of what remains |
| LexerFacts.TokenizeThree | fpevaluator.py:98-99 | a text read as three tokens in a row tokenizes as exactly those three |
| LexerFacts.TokenizeFour | fpevaluator.py:98-99 | a text read as four tokens in a row tokenizes as exactly those four |
| LexerFacts.BlanksSkipped | fpevaluator.py:98-99 | blanks in front of a text change neither the next token nor the token stream, and without leading blanks the token is read right at the front |
| Fold.CalcTokens | fpevaluator.py:25-33 | the generic fold; its meaning is stated by `FoldFacts.FoldSingle`, `FoldFacts.LeftFoldAppend` and `FoldFacts.RightFoldPrepend` |
| Fold.AsSum | fpevaluator.py:36-37 | the sum reduction; its meaning is stated by `FoldFacts.SumIsLeftFold` |
| Fold.AsTerm | fpevaluator.py:40-41 | the term reduction; its meaning is stated by `FoldFacts.TermIsLeftFold` |
| Fold.AsPower | fpevaluator.py:52-53 | the power reduction; its meaning is stated by `FoldFacts.PowerIsRightFold` |
| Fold.AsFactor | fpevaluator.py:44-49 | the sign reduction; its meaning is stated by `FoldFacts.FactorSignParity` |
| FoldFacts.WalkAppend | fpevaluator.py:27-32 | the fold's loop over two runs is the loop over the second continued from the first |
| FoldFacts.WalkPair | fpevaluator.py:28-32 | an operator selects the first combinator iff it is the production's own symbol, and the operand is combined with the running result in fold order |
| FoldFacts.FoldSingle | fpevaluator.py:25-33 | a one-operand run combines the seed with the operand through the first combinator |
| FoldFacts.LeftFoldAppend | fpevaluator.py:25-33 | in a left fold, an appended operator and operand are applied outside the fold of the run |
| FoldFacts.RightFoldPrepend | fpevaluator.py:25-33 | in a right fold, a prepended operand and operator are applied outside the fold of the rest, operand first |
| FoldFacts.SumIsLeftFold | fpevaluator.py:36-37 | `expr` folds from 0 to the left; `+` adds and every other operator subtracts |
| FoldFacts.TermIsLeftFold | fpevaluator.py:40-41 | `term` folds from 1 to the left; `*` multiplies and every other operator divides |
| FoldFacts.PowerIsRightFold | fpevaluator.py:52-53 | `power` folds from 1 to the right, so `x ^ rest` is `x` raised to the fold of the rest |
| FoldFacts.PowerSecondUnused | fpevaluator.py:52-53 | in a run separated only by `^`, the missing second combinator is never selected |
| FoldFacts.KeepSignParity | fpevaluator.py:44-48 | the sign flag ends as it started iff the run holds an even number of `-` |
| FoldFacts.FactorSignParity | fpevaluator.py:44-49 | `_as_factor` negates the last operand iff the run holds an odd number of `-`; `+` has no effect |
| FoldFacts.SumGroupsLeft | fpevaluator.py:36-37 | `a - b + c` builds `((0 + a) - b) + c` |
| FoldFacts.TermGroupsLeft | fpevaluator.py:40-41 | `a / b / c` builds `((1 * a) / b) / c` |
| FoldFacts.PowerGroupsRight | fpevaluator.py:52-53 | `a ^ b ^ c` builds `a ^ (b ^ (c ^ 1))` |
| Interpret.PowerChainValue | fpevaluator.py:52-53 | under the model's integer reading, `2 ^ 3 ^ 2` is 512 and not 64 |
| Interpret.SumChainValue | fpevaluator.py:36-37 | under the model's integer reading, `7 - 2 + 1` is 6 and not 4 |
| Parser.Atom | fpevaluator.py:81 | an atom is exactly one literal token: it matches iff the first token is a literal, consumes that one token, and never faults |
| Parser.Primary | fpevaluator.py:83-85 | a `parenexpr` match consumes at least one token |
| Parser.PowerMore | fpevaluator.py:86-87 | the `^` repetition keeps an operand/operator alternation and only extends the run |
| Parser.Power | fpevaluator.py:86-87 | a `power` match consumes at least one token |
| Parser.FactorRun | fpevaluator.py:88-89 | a `factor` run consumes at least one token and ends with an operand |
| Parser.Factor | fpevaluator.py:88-89 | a `factor` match consumes at least one token |
| Parser.TermMore | fpevaluator.py:90-91 | the `*` `/` repetition keeps an operand/operator alternation and only extends the run |
| Parser.Term | fpevaluator.py:90-91 | a `term` match consumes at least one token |
| Parser.ExprMore | fpevaluator.py:92-93 | the `+` `-` repetition keeps an operand/operator alternation and only extends the run |
| Parser.Expr | fpevaluator.py:92-93 | an `expr` match consumes at least one token |
| Parser.Statement | fpevaluator.py:94-95 | a `statement` match consumes at least one token |
| ParserFacts.PowerAlone | fpevaluator.py:86-87 | a lone operand is the power chain `x ^ 1` |
| ParserFacts.FactorAlone | fpevaluator.py:88-89 | an unsigned lone operand is a factor of its own |
| ParserFacts.PrimaryLiteral | fpevaluator.py:83-85 | a literal not followed by `(` is read by the atom alternative as its own leaf value |
| ParserFacts.TermAlone | fpevaluator.py:90-91 | a lone operand followed by nothing of `^ * / (` is the term `1 * x ^ 1`, and the rest is left unread |
| ParserFacts.OperandAlone | fpevaluator.py:92-93 | an operand followed by nothing that extends it is the expression `0 + 1 * x ^ 1`, and the rest is left unread |
| ParserFacts.FactorRunSigns | fpevaluator.py:88-89 | the sign run reads every sign and then one whole power chain; the run holds as many `-` as the signs, and no match or a fault in the power passes through |
| ParserFacts.FactorIsSignedPower | fpevaluator.py:88-89 | `factor` negates the whole power chain iff the signs hold an odd number of `-` |
| ParserFacts.PowerStep | fpevaluator.py:86-87 | `^` followed by a `parenexpr` extends the power run by that operand, and the repetition continues right after it |
| ParserFacts.PowerPair | fpevaluator.py:86-87 | the tokens `a ^ b` give `a ^ (b ^ 1)` |
| ParserFacts.MinusBindsLooserThanPower | fpevaluator.py:88-89 | `-a ^ b` is the negation of the power, not a power of `-a` |
| ParserFacts.BracketsYieldInner | fpevaluator.py:83 | a bracketed expression yields the inner value; without its closing bracket nothing matches |
| ParserFacts.CallOrSymbol | fpevaluator.py:83-85 | a name followed by a bracketed expression applies the named function, or faults if there is no such function; when the bracketed part does not match, the name is read as a symbol and the bracket is left unread |
| ParserFacts.FaultClimbs | fpevaluator.py:56-57 | a fault in the leading operand comes out of every production above it unchanged |
| ParserFacts.UnknownFunctionAborts | fpevaluator.py:56-57 | calling an unknown function at the start of a statement aborts it, although the name alone would have been a valid expression |
| ParserFacts.AssignmentFirst | fpevaluator.py:94-95 | `name = expr` is returned as an unreduced assignment; when the right side does not match, the statement is the lone symbol and `=` is left unread |
| ParserFacts.EvalIgnoresTail | fpevaluator.py:98-99 | `fpeval` gives the same result whatever follows a character that starts no token |
| ParserFacts.IntThenName | fpevaluator.py:95 | an integer followed by a name is a statement of the integer alone, with the name left unread |
| ParserFacts.OneE5Tokens | fpevaluator.py:63-65 | `1e5` is read as the integer `1` followed by the name `e5` |
| ParserFacts.ExponentWithoutPointIsIgnored | fpevaluator.py:98-99 | `fpeval("1e5")` is the integer 1 |
| Parser.Fpeval | fpevaluator.py:98-99 | evaluates a text; its outcomes are stated by `EvalFacts.ParseErrorWhenNothingStarts`, `EvalFacts.UnknownCallFails`, `EvalFacts.SpacedSumEvaluates` and `ParserFacts.EvalIgnoresTail` |
| EvalFacts.NoStatementStarts | fpevaluator.py:83-95 | signs followed by nothing, or by one of `) * / ^ =`, start no statement |
| EvalFacts.ParseErrorWhenNothingStarts | fpevaluator.py:98-99 | a text whose tokens are empty or begin with one of `) * / ^ =` is a parse error |
| EvalFacts.EmptyIsParseError | fpevaluator.py:98-99 | the empty text is a parse error |
| EvalFacts.BlanksAreParseError | fpevaluator.py:98-99 | a text of blanks only is a parse error |
| EvalFacts.BracketedTokens | fpevaluator.py:83-85 | `(d)` lexes as the two brackets around the integer |
| EvalFacts.CallTokens | fpevaluator.py:83-85 | `n(d)` lexes as the name, the brackets and the integer |
| EvalFacts.UnknownCallStatement | fpevaluator.py:56-57 | the tokens of a call of an unknown name fault the statement with that name |
| EvalFacts.UnknownCallFails | fpevaluator.py:56-57 | `fpeval` of a call of a name the catalogue does not hold fails with that name |
| EvalFacts.PlusTokens | fpevaluator.py:92-93 | `+` with a blank before the integer lexes as the operator and the integer |
| EvalFacts.SpacedSumTokens | fpevaluator.py:98-99 | `a + b` with blanks around the operator lexes as three tokens |
| EvalFacts.SumStatement | fpevaluator.py:92-95 | the tokens `a + b` are the statement `(0 + a) + b`, with each operand the term `1 * x ^ 1` |
| EvalFacts.SpacedSumEvaluates | fpevaluator.py:98-99 | `fpeval` of `a + b` with blanks is the sum of the two terms, as without blanks |
| EvalFacts.OnePlusTwoTokens | fpevaluator.py:98-99 | the text `1 + 2` lexes as `1`, `+`, `2` |
| EvalFacts.UnknownSineFails | fpevaluator.py:56-57 | `fpeval("sin(1)")` fails with the name `sin` when the catalogue lacks it |
| ChainFacts.TermStep | fpevaluator.py:90-91 | `*` or `/` followed by a `factor` extends the term run by that factor and that operator, and the repetition continues right after it |
| ChainFacts.ExprStep | fpevaluator.py:92-93 | `+` or `-` followed by a `term` extends the sum run by that term and that operator, and the repetition continues right after it |
| ChainFacts.RunsStop | fpevaluator.py:86-93 | each repetition facing anything but its own operators reads nothing and leaves the run as it was |
| ChainFacts.DanglingOperatorUnread | fpevaluator.py:86-93 | an operator not followed by a match of its operand production is left unread, and the run is kept as it was |
| ChainFacts.OperandFaultAborts | fpevaluator.py:86-93 | an operator followed by an operand whose production faults makes the repetition fault with that error; the operator is not left unread |
| ChainFacts.RunFaultClimbs | fpevaluator.py:86-93 | a fault inside a repetition comes out of `power`, `term` and `expr` unchanged |
| ChainFacts.StatementFault | fpevaluator.py:94-95 | a faulting expression, where no assignment starts, faults the statement with the same error |
| ChainFacts.LaterUnknownCallAborts | fpevaluator.py:56-57 | a call of an unknown function after `a +` aborts the whole statement, not only its own operand |
| ChainFacts.PowerMoreChain | fpevaluator.py:86-87 | over any number of `^ literal` links followed by nothing that extends them, the repetition reads every link, appends each operand as a leaf, and stops exactly before the rest |
| ChainFacts.TermMoreChain | fpevaluator.py:90-91 | over any number of `*`/`/` links with literal operands, the repetition reads every link, appends each operand as the factor `x ^ 1` with its operator, and stops exactly before the rest |
| ChainFacts.ExprMoreChain | fpevaluator.py:92-93 | over any number of `+`/`-` links with literal operands, the repetition reads every link, appends each operand as the term `1 * x ^ 1` with its operator, and stops exactly before the rest |
| ChainFacts.PowerFoldNests | fpevaluator.py:52-53 | the power fold of a literal run is `x ^ (t1 ^ (... ^ (tn ^ 1)))` |
| ChainFacts.TermFoldNests | fpevaluator.py:40-41 | the term fold of a literal run applies the operators left to right from `1 * x`, `*` multiplying and `/` dividing |
| ChainFacts.SumFoldNests | fpevaluator.py:36-37 | the sum fold of a literal run applies the operators left to right from `0 + x`, `+` adding and `-` subtracting |
| ChainFacts.PowerChain | fpevaluator.py:86-87 | `power` reads a whole `^` run of literals of any length, nests it to the right, and leaves the rest unread |
| ChainFacts.TermChain | fpevaluator.py:90-91 | `term` reads a whole `* /` run of literals of any length, folds it to the left, and leaves the rest unread |
| ChainFacts.ExprChain | fpevaluator.py:92-93 | `expr` reads a whole `+ -` run of literals of any length, folds it to the left, and leaves the rest unread |
| ChainFacts.SumOfThree | fpevaluator.py:92-93 | the tokens `a - b + c` give `((0 + a) - b) + c` with each operand the term `1 * x ^ 1` |
| ChainFacts.QuotientOfThree | fpevaluator.py:90-91 | the tokens `a / b / c` give `((1 * a) / b) / c` with each operand the factor `x ^ 1` |
| ChainFacts.PowerOfThree | fpevaluator.py:86-87 | the tokens `a ^ b ^ c` give `a ^ (b ^ (c ^ 1))` |
| ChainFacts.ProductBindsTighter | fpevaluator.py:90-93 | the tokens `a + b * c` give `(0 + a) + ((1 * b) * c)`: the product is read whole as the second term |
| Grading.CheckAnswer | webapp.py:131-133 | an empty or missing answer on either side is wrong without evaluating; otherwise a failure of the submitted side is returned as is, then a failure of the stored side, and when both evaluate the verdict is whether the two values are equal |
| Grading.AddToJsonColumn | webapp.py:77-83 | without a user, or for a key that is not a JSON list column, nothing changes; otherwise the value is in the list afterwards, the old list is a prefix of the new one, at most one entry is added, the list is unchanged iff the value was already there, and no duplicate is gained |
| Grading.Submit | webapp.py:202-207 | a missing problem is an error; a grading failure is returned as that evaluation error; otherwise the verdict of `check_answer` is returned, and the pass is recorded iff the verdict is true |
| GradingFacts.StoredAnswerPasses | webapp.py:131-133 | when the stored answer evaluates to a value and equality of values is reflexive, the stored answer itself passes |
| GradingFacts.AssignmentNeverPasses | webapp.py:132 | when assignments equal nothing, a submitted assignment that evaluates is graded wrong |
| GradingFacts.VerdictSymmetric | webapp.py:132 | with a symmetric equality, swapping the two answers keeps the verdict when both evaluate |
| GradingFacts.SubmittedErrorFirst | webapp.py:132 | when both sides fail, the submitted answer's error is the one reported |
| GradingFacts.VerdictIgnoresTail | webapp.py:132 | text after a character that starts no token never changes the verdict |
| GradingFacts.AddIdempotent | webapp.py:80-81 | recording the same value twice is recording it once |
| GradingFacts.AddKeepsOrder | webapp.py:79-82 | existing entries keep their positions |
| GradingFacts.FirstIndexExtend | webapp.py:80-81 | a first occurrence stays the first when a value is appended |
| GradingFacts.RecordStep | webapp.py:79-82 | one more recorded pass keeps the list free of duplicates with new entries in first-pass order |
| GradingFacts.RecordAllInOrder | webapp.py:79-82 | from a list without duplicates, a run of recorded passes keeps the old entries in front, lists every value exactly once, and adds new ones in the order of their first pass |
| GradingFacts.SubmitRecordsIffPassed | webapp.py:204-206 | for a signed-in user, the problem is in the passed list afterwards iff the answer was right or it was already there |
| GradingFacts.ResubmitChangesNothing | webapp.py:204-206 | submitting the same answer again leaves the account as the first submission left it |

## Left out

- The identifier character sets are ASCII letters, digits and `_`. The original's sets also hold the Latin-1 letters and the other Latin-1 characters Python accepts in identifiers.
- `\d` stands for the ASCII digits only. Python's `\d` also matches other Unicode decimal digits.
- The symbolic algebra library is not modelled:
  - its automatic simplification;
  - its equality, which is the parameter `same`;
  - its number types: true division, `Float` precision, integer size.
  The `Interpret` module is this model's own integer reading, not the library's arithmetic.
- The function catalogue is the set of names `known`. Errors raised inside a catalogue function are not modelled.
- An error in a reduction action that the parsing library would turn into a parse exception is not modelled. Only the unknown-function fault is.
- The position and message of a parse error are not modelled; `ParseError` carries nothing.
- Assignment does not bind anything: the statement is returned as the group `Assign(name, value)`.
- The web application is not modelled: Flask routes, templates, sessions, the database, commits, JSON encoding and decoding of the list column, password hashing, images and avatars.
- A visitor who is not signed in is not modelled. The `submit` route has no login requirement, and the anonymous user object is truthy but has no `passedprobs`, so a passing anonymous submission raises `AttributeError` at webapp.py:79. `Submit` with no account models the `if user` guard of `add_to_json_column` only; no request reaches it.
- `str(value)` in `add_to_json_column` is the identity here, because the problem number passed by `submit` is already a string.
- Parser.Primary: the contract states only progress; what the alternatives build is stated by `ParserFacts.BracketsYieldInner` and `ParserFacts.CallOrSymbol`.
- Parser.PowerMore: the contract states only that the run stays an alternation and grows; what it reads is stated by `ParserFacts.PowerStep`, `ChainFacts.RunsStop`, `ChainFacts.DanglingOperatorUnread` and `ChainFacts.PowerMoreChain`, and its fault by `ChainFacts.OperandFaultAborts` and `ChainFacts.RunFaultClimbs`.
- Parser.TermMore: the contract states only that the run stays an alternation and grows; what it reads is stated by `ChainFacts.TermStep`, `ChainFacts.RunsStop`, `ChainFacts.DanglingOperatorUnread` and `ChainFacts.TermMoreChain`, and its fault by `ChainFacts.OperandFaultAborts` and `ChainFacts.RunFaultClimbs`.
- Parser.ExprMore: the contract states only that the run stays an alternation and grows; what it reads is stated by `ChainFacts.ExprStep`, `ChainFacts.RunsStop`, `ChainFacts.DanglingOperatorUnread` and `ChainFacts.ExprMoreChain`, and its fault by `ChainFacts.OperandFaultAborts`, `ChainFacts.RunFaultClimbs` and `ChainFacts.LaterUnknownCallAborts`.
- Parser.Power: the contract states only progress; the tree is stated by `ParserFacts.PowerAlone`, `ParserFacts.PowerPair` and, for runs of any length, `ChainFacts.PowerChain`.
- Parser.Factor: the contract states only progress; the sign rule is stated by `ParserFacts.FactorIsSignedPower`.
- Parser.Term: the contract states only progress; the tree is stated by `ParserFacts.TermAlone` and, for runs of any length, `ChainFacts.TermChain`.
- Parser.Expr: the contract states only progress; the tree is stated by `ParserFacts.OperandAlone`, `ChainFacts.ExprChain` for runs of any length, and `ChainFacts.ProductBindsTighter` for a product inside a sum.
- Parser.Statement: the contract states only progress; the choice is stated by `ParserFacts.AssignmentFirst`, a fault by `ChainFacts.StatementFault`, and no match by `EvalFacts.NoStatementStarts`.
- Lexer.Pick: the contract states only that a proper suffix remains; the choice itself is stated by `Lexer.LexAtSound`.
- Lexer.LexAt: the contract states only that a proper suffix remains; what the token is, is stated by `Lexer.LexAtSound`.
- Lexer.Lex: the contract states only that a proper suffix remains; the skipped blanks are stated by `LexerFacts.BlanksSkipped`, and the token read after them by `Lexer.LexAtSound`.
- Lexer.Tokenize: has no contract of its own; `LexerFacts.TokenizeCons`, `LexerFacts.BlanksSkipped` and `LexerFacts.TokenizeWellFormed` state it.
- Parser.Fpeval: has no contract of its own; the parse error is stated by `EvalFacts.ParseErrorWhenNothingStarts`, the unknown-function failure by `EvalFacts.UnknownCallFails`, a value by `EvalFacts.SpacedSumEvaluates` and `ParserFacts.ExponentWithoutPointIsIgnored`, and tail independence by `ParserFacts.EvalIgnoresTail`.
- Fold.CalcTokens: has no contract of its own; `FoldFacts.FoldSingle`, `FoldFacts.LeftFoldAppend` and `FoldFacts.RightFoldPrepend` state it.
- Fold.AsSum: has no contract of its own; `FoldFacts.SumIsLeftFold` states it.
- Fold.AsTerm: has no contract of its own; `FoldFacts.TermIsLeftFold` states it.
- Fold.AsPower: has no contract of its own; `FoldFacts.PowerIsRightFold` states it.
- Fold.AsFactor: has no contract of its own; `FoldFacts.FactorSignParity` states it.
- Nesting depth is unbounded. The original could exhaust its recursion limit on very deep input, and that is not modelled.
