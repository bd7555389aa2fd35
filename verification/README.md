# Placement constraint compiler

This project models the core of TiDB's `placement` package: the compiler
`NewRules(role, replicas, text)` that turns a user-written constraint text
into placement rules, the `+key=value` / `-key=value` token parser it uses,
`NewRule`, `Rule.Clone`, and the order-insensitive rule comparison
`matchRulesT` of the package's tests. The behaviour follows the assertions
of `ddl/placement/rule_test.go`.

The compiler accepts three shapes of text, after every single quote has
been read as a double quote:

- blank text: one rule with the whole replica count and no constraints
  (zero replicas is an error);
- a JSON array of tokens such as `["+zone=sh", "+region=sh"]`: one rule with
  the whole replica count, carrying the tokens' constraints in array order;
- a JSON object from comma-joined token lists to counts such as
  `{"+zone=sh,-zone=bj": 2, "+zone=sh": 1}`: one rule per entry, plus one
  unconstrained rule for the replicas the entries leave over; with zero
  replicas the entries' total is not bounded and nothing is added.

Failures fall into five kinds (`Results.Error`): invalid replicas, invalid
format, invalid constraint format (a malformed token inside a map key),
invalid map count, and a misused mapping separator.

Modules, leaf first:

- `Results`: error kinds, `Option`, `Result`.
- `Strings`: trimming, searching, splitting and joining strings.
- `Constraints`: operators, constraints, the token parser and its printer.
- `Rules`: roles, rules, `NewRule`, `Clone`.
- `SpecText`: quote normalization and the recognizer of the three shapes.
- `SpecRender`: a printer for arrays and objects with arbitrary white space,
  used to state what the recognizer reads back.
- `Recognition`: lemmas about the recognizer on whole texts.
- `Seqs`: mapping over sequences, up to permutation.
- `Compiler`: `Compile`, `NewRules`, and their lemmas.
- `Matching`: the tests' comparison of rule lists and the exact multiset
  comparison.
- `TableText`, `Scenarios`: every case of the compiler's test table, proved
  as a lemma about `NewRules`.

A rule's constraints are kept as an ordered sequence. The tests compare
rules with `reflect.DeepEqual` (`rule_test.go:57`), which compares slices
element by element, in order.

## Model

| member | source | states |
|---|---|---|
| Rules.NewRule | ddl/placement/rule_test.go:81-83 | a new rule carries the given role, count and constraints, and an empty identifier |
| Rules.Clone | ddl/placement/rule_test.go:26-28 | a clone is equal to the rule it copies, constraint lists included |
| Rules.CloneThenRename | ddl/placement/rule_test.go:26-33 | renaming a clone gives the original rule with the new identifier; it differs from the original whenever the identifier differs, and the original is untouched |
| Constraints.ParseToken | ddl/placement/rule_test.go:95-101 | a parsed token is a tokenizable constraint whose printed token is the input; text with no sign or no `=` is rejected |
| Constraints.ParseRenderToken | ddl/placement/rule_test.go:98-116 | every `In`/`NotIn` constraint with one value and a non-empty key without `=` is read back from its token |
| Constraints.ParseTokensSpec | ddl/placement/rule_test.go:93-103 | a token list parses exactly when every trimmed token does, and the constraints come out in token order |
| Constraints.ParseKeyRender | ddl/placement/rule_test.go:107-116 | a map key that joins with commas the tokens of plain constraints (tokenizable, no comma in key or value, value not ending in white space) denotes exactly those constraints, in order |
| Constraints.ParseKeyBadHead | ddl/placement/rule_test.go:185-190 | a key whose first comma-separated piece is malformed is malformed, whatever follows |
| SpecText.Normalize | ddl/placement/rule_test.go:120-134 | single quotes become double quotes, and every other character stays where it was |
| Recognition.RecognizeEmpty | ddl/placement/rule_test.go:77-91 | text is recognized as empty exactly when it is all white space |
| Recognition.RecognizeArrayText | ddl/placement/rule_test.go:93-103 | every rendering of an array of quotable strings, padded with any white space, is recognized as that array |
| Recognition.RecognizeObjectText | ddl/placement/rule_test.go:105-118 | every padded rendering of an object with distinct quotable keys is recognized as that object, entries in written order |
| Recognition.RecognizeUnquotedKey | ddl/placement/rule_test.go:178-183 | braced text whose first key is unquoted and which does not end in a closing brace is a format error |
| Recognition.RecognizeSound | ddl/placement/rule_test.go:93-118 | whatever is accepted obeys the restricted grammar: quotable array items, and distinct quotable object keys |
| Recognition.SeparatorMisuseUnstructured | ddl/placement/rule_test.go:192-197 | text that the separator heuristic flags is never an accepted array or object |
| Recognition.RecognizeSeparator | ddl/placement/rule_test.go:178-197 | the mapping-separator error is reported exactly for text the heuristic flags once trimmed |
| Compiler.CompileRulesWellFormed | ddl/placement/rule_test.go:77-148 | every rule returned has the requested role, a positive count and no identifier |
| Compiler.CompileMapConserves | ddl/placement/rule_test.go:105-148 | the counts of a successful map form add up to the replica count, or to the declared total when zero replicas are requested |
| Compiler.CompileConservesReplicas | ddl/placement/rule_test.go:77-148 | the counts of every successful result add up to the replica count, except that a map form with zero replicas adds up to the declared total |
| Compiler.CompileMapErrors | ddl/placement/rule_test.go:150-162 | for each error kind of the map form, the condition under which exactly that error is reported, and when the map form succeeds |
| Compiler.CompileMapRules | ddl/placement/rule_test.go:105-148 | a successful map form gives one rule per entry with that entry's count and key constraints, then one unconstrained rule for the remainder exactly when the entries fall short |
| Compiler.EntryRulesSpec | ddl/placement/rule_test.go:109-117 | entry rules correspond one to one with the entries, keeping count and key constraints |
| Compiler.CompileMapPermutation | ddl/placement/rule_test.go:52-65 | reordering a map's entries gives the same error, or the same rules up to order |
| Compiler.QuoteTolerance | ddl/placement/rule_test.go:120-138 | texts that differ only in which quote character they use compile to the same result |
| Matching.MatchRules | ddl/placement/rule_test.go:52-65 | the tests' comparison succeeds exactly when the lengths agree and every expected rule occurs in the result |
| Matching.MatchRulesExactly | ddl/placement/rule_test.go:52-65 | striking expected rules off a copy of the result succeeds exactly when both hold the same rules the same number of times |
| Matching.SameRulesMatch | ddl/placement/rule_test.go:52-65 | lists that agree as multisets pass the tests' comparison |
| Matching.MatchRulesTooWeak | ddl/placement/rule_test.go:52-65 | the tests' comparison accepts `[a, b]` against the expectation `[a, a]`, which differ as multisets |
| Matching.MatchExactWhenDistinct | ddl/placement/rule_test.go:52-65 | when no expected rule repeats, the tests' comparison implies multiset equality |
| Scenarios.EmptyConstraints | ddl/placement/rule_test.go:77-84 | empty text with three replicas gives one unconstrained rule of three replicas |
| Scenarios.ZeroReplicas | ddl/placement/rule_test.go:86-91 | empty text with zero replicas is an invalid-replicas error |
| Scenarios.PairArrayCompiles | ddl/placement/rule_test.go:93-103 | a two-token array with well-formed tokens compiles to one rule with the whole replica count and the tokens' constraints |
| Scenarios.NormalArrayConstraints | ddl/placement/rule_test.go:93-103 | `["+zone=sh", "+region=sh"]` with three replicas gives one rule with `zone in sh` and `region in sh` |
| Scenarios.PairCompiles | ddl/placement/rule_test.go:105-148 | a two-entry object, written with either quote character, compiles exactly as the map of its two entries |
| Scenarios.PairCountError | ddl/placement/rule_test.go:150-155 | a two-entry map with a non-positive count is an invalid-map-count error |
| Scenarios.PairReplicaError | ddl/placement/rule_test.go:157-162 | a two-entry map whose positive counts exceed a non-zero replica count is an invalid-replicas error |
| Scenarios.PairKeyError | ddl/placement/rule_test.go:185-190 | a two-entry map within the replica count whose first key is malformed is an invalid-constraint-format error |
| Scenarios.PairRulesRemainder | ddl/placement/rule_test.go:120-148 | a valid two-entry map gives the two entry rules, plus a remainder rule exactly when the replicas exceed the total |
| Scenarios.SignlessKeyFails | ddl/placement/rule_test.go:187 | the key `nesh,-zone=bj` is malformed |
| Scenarios.ZoneMapRules | ddl/placement/rule_test.go:105-148 | the test table's map gives its two rules, plus a remainder rule exactly when more than three replicas are requested |
| Scenarios.NormalObjectConstraints | ddl/placement/rule_test.go:105-118 | the double-quoted map with three replicas gives the two-replica and one-replica rules and nothing else |
| Scenarios.SingleQuotedCompiles | ddl/placement/rule_test.go:120-148 | the single-quoted map compiles as the test table's two entries, for any replica count |
| Scenarios.ExtraCountConstraints | ddl/placement/rule_test.go:120-134 | with four replicas the map gets an extra unconstrained rule of one replica |
| Scenarios.WithoutCountConstraints | ddl/placement/rule_test.go:136-148 | with zero replicas the map gives only its two entry rules |
| Scenarios.ZeroCountConstraints | ddl/placement/rule_test.go:150-155 | a zero count is an invalid-map-count error |
| Scenarios.OverlargeCountConstraints | ddl/placement/rule_test.go:157-162 | counts totalling five against three replicas is an invalid-replicas error |
| Scenarios.UnclosedArrayConstraints | ddl/placement/rule_test.go:164-169 | an array without its closing bracket is a format error |
| Scenarios.SignlessArrayConstraints | ddl/placement/rule_test.go:171-176 | an array holding a token without a sign is a format error |
| Scenarios.UnquotedCompiles | ddl/placement/rule_test.go:178-183 | braced text with an unquoted first key that is not closed compiles to a format error |
| Scenarios.UnquotedObjectConstraints | ddl/placement/rule_test.go:178-183 | the unclosed object with an unquoted key is a format error |
| Scenarios.BadKeyConstraints | ddl/placement/rule_test.go:185-190 | a map key holding a token without a sign is an invalid-constraint-format error |
| Scenarios.FlaggedCompiles | ddl/placement/rule_test.go:192-197 | trimmed text the separator heuristic flags compiles to the mapping-separator error |
| Scenarios.WrongSeparatorConstraints | ddl/placement/rule_test.go:192-197 | `{+region=us-east-2:2}` is a mapping-separator error |
| TableText.WrongSeparatorFlagged | ddl/placement/rule_test.go:194 | the separator heuristic flags `{+region=us-east-2:2}` |

## Left out

- JSON in full: the recognizer covers a restricted grammar, namely an array of strings or an object from strings to integers. It has no escape sequences, no Unicode escapes, no numbers other than integers, and no nested values. Texts outside that grammar are format errors. Inside it, the recognizer is more lenient than a JSON decoder in three ways, listed below.
- SpecText.ParseInt: a count with leading zeros, such as `01`, is read as its value. JSON rejects it.
- SpecText.Recognize: vertical tab and form feed count as white space between tokens, as they do for `strings.TrimSpace`. JSON allows only space, tab, line feed and carriage return there.
- SpecText.ParseQuoted: a raw control character, such as a newline, is accepted inside a quoted string. JSON requires it to be escaped.
- Strings.IsSpace: only ASCII white space is trimmed. The Unicode white space that Go's `strings.TrimSpace` also removes (U+0085, U+00A0, U+2000 to U+200A and others) is kept, so a token padded with it is malformed in the model.
- Recognition.RecognizeObjectRepeated: the model rejects an object that repeats a key, as a format error. The test file has no such input, and a decoder into a Go map could instead keep one of the values. Rejecting is the model's choice; it keeps every entry a rule of its own.
- Integer widths: replica counts and map counts are unbounded integers. The source's `uint64` replica count, and any overflow of the counts' total, are not modelled.
- `Exists` and `NotExists`: these operators are part of the operator type, but no token produces them, so no parsing rule is given for them.
- Error messages and `errors.Is` wrapping: errors are plain values of one enumeration.
- Rule fields other than identifier, role, count and constraints: the test file does not exercise them.
- Rules.Clone: Go pointer identity is not modelled. With immutable values a copy is structurally the original, so the independence the test checks is stated as equality plus an update of the copy that leaves the original unchanged (`Rules.CloneThenRename`).
- The `pingcap/check` helper `matchRules` (`rule_test.go:35-50`): it makes the same comparison as `matchRulesT` through another assertion library, so `Matching.MatchRules` stands for both.
- Recognition.RecognizeSeparator: this does not claim the heuristic separates exactly the texts the source's JSON decoder would flag. It is one explicit predicate, checked against the two test inputs.
- The map form's error precedence: the tests pin each error kind on an input that has only that fault. Precedence between faults is a modelling choice: non-positive count first, then a total above the replicas, then a malformed key. With this order the result does not depend on entry order (`Compiler.CompileMapPermutation`).
- Map iteration order: the source iterates a Go map in unspecified order. The model compiles entries in written order and proves that order insignificant (`Compiler.CompileMapPermutation`).

## Findings

| source | as written | input that shows it | evidently intended | confidence | as-written member | corrected member |
|---|---|---|---|---|---|---|
| ddl/placement/rule_test.go:52-65 | the comparison checks equal lengths and that each expected rule occurs somewhere in the result | expected `[a, a]` against result `[a, b]` with `a != b` passes | the two lists hold the same rules the same number of times (multiset equality) | medium, not executed; no test case lists a rule twice, so the test table is unaffected (`Matching.MatchExactWhenDistinct`) | Matching.MatchRulesTooWeak | Matching.MatchRulesExactly |
