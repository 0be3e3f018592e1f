# ATTESTA: proofs about the decision path

ATTESTA promises that a verdict can be reproduced: the same evidence, rules and policy give the same decision, and
nothing else influences it. This project models the algorithmic code that promise rests on and proves what it is
meant to guarantee, for all inputs and, where state is involved, for all runs.

| part of the system | modules | main results |
|---|---|---|
| CDL, the detection language: evaluator, aggregation, rule-to-SQL compiler, parser | `CdlExpr`, `CdlSemantics`, `CdlEvents`, `CdlAggregate`, `CdlStreaming`, `CdlMeaning`, `CdlSql`, `CdlCompile`, `CdlQuery`, `CdlErrors`, `CdlGroups`, `CdlGroupRecord`, `CdlJoin`, `CdlCase`, `CdlRule`, `CdlEquivalence`, `CdlGuards`, `CdlTravel`, `CdlTravelGate`, `CdlReplay`, `CdlReplayGate`, `CdlDisagree`, `CdlFunctions`, `CdlParser` | what a rule claims, in the terms of its events, and when either path fails; both execution paths of a rule yield the same claims with multiplicity, up to what exactly one of them can see; expression compilation preserves meaning; the parser accepts exactly its grammar |
| the evidence ledger | `Bytes`, `Cbor`, `Merkle`, `Epoch` | one encoding per meaning, read back by a decoder written from RFC 8949; a root binds its list and a proof its id; the last chain hash binds all history |
| the adjudication kernel | `Claims`, `Kernel`, `KernelProofs`, `KernelMeaning`, `Repricing` | the verdict depends on the multiset of claim ids only; it follows from the claims' signed weights, and turning a claim against the case never raises it; a repriced policy has the indicators' weights, and repricing upwards never lowers a verdict |
| the investigation loop | `Investigate` | rejected proposals influence nothing, composed with the kernel |
| agent, canvas and ingest | `SpillBuffer`, `Quadtree`, `QuadIndex`, `Mapping` | FIFO and no loss under every interleaving, and an end after Close; the index against a linear scan; independence of Go's map order |

## How to read it

Code that works step by step (loops, cursors, mutable objects) is modelled by methods and classes in the same shape.
Each is proved equal to a specification function, and the promises are proved as lemmas about that function. Three
devices recur.

- **Hashes.** BLAKE3 is a parameter `H`, any function to 32 bytes. Results name an explicit collision instead of
  assuming there is none: either the conclusion holds, or the lemma returns two distinct strings with one hash, each
  of which was actually hashed on its own side (`HashedIn`, `Chained`, `EncodedIn`, ...).
- **Arbitrary orders.** Where Go walks a map, the order is a parameter or an arbitrary choice. Where the runtime sorts
  without promising stability, only the absence of inversions is used.
- **SQL.** A compiled rule is a relational term (CTEs with WHERE, GROUP BY, MIN, MAX, COUNT DISTINCT and correlated
  subqueries, LEFT JOIN, WHERE) under three-valued logic. What SQLite leaves open (how text becomes a number, text
  collation, which of tied rows LIMIT 1 returns) is an `Engine` parameter; the theorems hold for every engine.

## The rule theorem and its conditions

`CdlEquivalence.ClaimsBalance` says what two successful runs have in common. Let every emit clause stand for the last
one of its predicate, the one whose query is kept. Then the queries' claims and what those clauses fire in the streaming
evaluator are the same with multiplicity, but for two kinds: claims about cases whose anchor matched nothing, which SQL
has no row for, and rows of anchor matches that lack a case field, which no case stands for. Observed values are read
with bools as 0/1 and whole floats as integers (`CdlCase.DecodesExactly` says when that reading is not needed).
`CdlEquivalence.RuleEquivalence` draws the consequences: the two runs agree if and only if what each makes alone cancels
out; they do when predicates are distinct, anchor matches carry all case fields and cases without an anchor match stay
silent. `CdlGuards.GuardedEquivalence` drops the second of these for rules that guard with `last_x != null`.

The premises (`RuleOk`) are conditions on the rule and the events:

- every event has an int64 `time` above the minimum; group fields, where present, are non-null scalars of one kind, free
  of the 0x1f separator, under column names of their own; the entity is an anchor field and no bool;
- wherever a `where` can be evaluated, SQL finds it true exactly when the evaluator does (`Sided`); events may lack any
  field it mentions;
- for each case with an anchor match, SQL finds each `suppress` clause false exactly when the evaluator does, up to the
  first that holds, and each `when` true exactly when the evaluator does; what `observed` consults means the same;
- of the tracked fields only those consulted matter, and only in the case at hand: `LastSound` and `DistinctSound`.

Each comes with its exact form or with a rule that disagrees without it:

- `CdlCompile.EqualSidedExactly`, `CdlCompile.NotSidedExactly`: over a null SQL is unknown, so `==` is found true alike
  exactly unless both operands are null, `!=` exactly if both are, and `not` swaps the sides.
- `CdlCompile.EqualityAgreesExactly`: on both sides at once `==` agrees exactly for `Comparable` operands.
- `CdlGroups.LastAgreesExactly`: a tracked field agrees with its column exactly when the latest match carries it, or
  nothing was remembered, or what was remembered is null.
- `CdlCase.TimestampsAgreeExactly`, `CdlDisagree.EmptyTimestampDisagrees`: the timestamps of a source without a match.
- `CdlDisagree.NullSuppressDisagrees`: a suppress clause over a missing value drops the row in SQL only.
- `CdlDisagree.TwoEmitsDisagree`: two emit clauses of one predicate.
- `CdlDisagree.MixedKindsDisagree`: a group field that is once the integer 1 and once the text "1".

Two shipped rules put the theorem to work, with success of both paths as a conclusion. rules/impossible-travel.cdl.yaml
claims travel above 900 km in an hour on either path, whichever way the events are loaded, although a trip's first event
lacks the tracked distance (`CdlTravelGate.BothPathsTravel`); its fixtures are such trips (`CdlTravel.ShippedFixtures`).
rules/token-replayed.cdl.yaml claims, of any uses of any sessions, exactly those used from two or more addresses
(`CdlReplay.ReplayOutcome`, `CdlReplayGate.BothPathsReplay`).

What each path computes, and when it fails, is also stated without its own functions. `CdlSemantics` relates expressions
to values by the operators' meanings; `CdlMeaning` says what every identifier of an aggregate means, which cases there
are and which claims they make, each error included; `CdlErrors` says exactly when a rule compiles and runs. One
difference shows there: over an empty corpus the streaming path makes no claims, while SQL has no table to read and
fails (`CdlErrors.RunsExactly`).

## Where code and documentation disagree

The model follows the code.

- ledger/cbor.go:13-17 says keys are not ordered length-first. For text keys they are: `Cbor.KeyOrder` proves the two
  orders equal, so the rule of section 4.2.1 of RFC 8949 and that of section 3.9 of RFC 7049 give the same bytes here.
- detect/expr/parser.go:164-172 reads integer literals through float64, so an int64 literal survives exactly when float64
  holds it (`CdlParser.PrintParseRoundTrip`; `CdlParser.LargeLiteralChanges` is a concrete case).
- detect/aggregate.go:153 says the first match always updates what is tracked. It does unless its time is the int64
  minimum, where `ts - 1` wraps round: then last_ts stays 0 and last_x null until a match at the int64 maximum
  (`CdlAggregate.LatestWraps`, `CdlMeaning.TimesMean`).
- agent/buffer.go:28-33 says memory is used again once the disk backlog is drained. That is so exactly when the push
  before found room, wrote its file or found files waiting (`SpillBuffer.MemoryAfterPushExactly`); a write that fails with
  nothing on disk leaves the emptied buffer spilling (`SpillBuffer.FailedWriteRun`) until a later file is written and
  taken (`SpillBuffer.RecoversWithNextFile`). Order and conservation are unaffected.
- web/src/components/investigation-canvas/quadtree.ts:74-85 promises every point within the range. Pruning is strict and
  the leaf test closed, so a point on the range's right or bottom edge is found exactly when its leaf's rectangle meets
  the range's interior (`Quadtree.QueryExactly`), which other points can change (`Quadtree.OtherPointsChangeEdgeAnswers`)
  and the order of insertion cannot (`Quadtree.InsertionOrderIrrelevant`).
- ingest/mapping.go:90-129: the result depends on the order of the map walk exactly when two fields the event carries have
  related targets (`Mapping.DeterministicExactly` has the precise condition), and a field mapped under `unmapped` is lost to
  leftover fields (`Mapping.ApplyReadsBack`, `Mapping.UnmappedTargetIsLost`).
- detect/env.go:113 trims quotes off a rendered group name, so `asset_group("'ci-runners")` names a group in SQL and none in
  Go; `CdlFunctions.AssetGroupAgreesExactly` has the exact condition.

## Model

| member | source | states |
|---|---|---|
| `CdlExpr.Evaluate` | detect/expr/eval.go:42-163 | the recursive walk computes the reference semantics: literals, environment look-ups, lists, calls, and `and`/`or` that leave their right operand alone once the left decides |
| `CdlExpr.EvaluateAll` | detect/expr/eval.go:48-71 | list items and arguments are evaluated in order, the first error ending it |
| `CdlExpr.FindMember` | detect/expr/eval.go:149-159 | the search of `in` stops at the first equal element and fails at an incomparable one before it |
| `CdlSemantics.EvalIsMeaning` | detect/expr/eval.go:42-243 | Eval succeeds exactly on the expressions that have a value in a relational semantics written from the operators' meanings, short-circuits and every error case included, and yields that value |
| `CdlSemantics.ConditionIsMeaning` | detect/expr/eval.go:27-40 | a condition is true or false exactly when its value is that bool, and an error otherwise |
| `Common.RoundsHalfEven` | detect/expr/eval.go:174-183 | the conversion takes the nearest multiple of the spacing, and of two as near the even one |
| `Common.WrapMeaning` | detect/expr/eval.go:210-243 | int64 arithmetic yields the one int64 congruent to the true result modulo 2^64 |
| `Common.Float64Monotone` | detect/expr/eval.go:174-183 | converting int64 to float64 keeps order |
| `Common.Float64Exact` | detect/expr/eval.go:174-183 | integers up to 2^53 in size convert exactly |
| `Common.Float64Separates` | detect/expr/eval.go:165-205 | integers more than 1024 apart stay apart under the conversion |
| `CdlCompile.CompileExpr` | detect/expr/tosql.go:28-76 | the compiler's recursion and its list and call loops produce the specified SQL term, and an error exactly where an operand or resolver errs |
| `CdlCompile.FloatOrder` | detect/expr/eval.go:165-208 | comparing through float64 equals comparing exactly when the operands are not merged by rounding |
| `CdlCompile.EqualityAgreesExactly` | detect/expr/tosql.go:112-161 | SQL `=` gives Go's `==`, true or false, exactly when the scalars are comparable: neither is null, two numbers are not merged by float64, and no bool meets the number that encodes it |
| `CdlCompile.MemberPreserved` | detect/expr/tosql.go:146-147 | IN over represented items gives the verdict of the search loop |
| `CdlCompile.ArithPreserved` | detect/expr/eval.go:210-243 | addition, subtraction and multiplication keep their value when the exact result is representable |
| `CdlCompile.ShortCircuitPreserved` | detect/expr/eval.go:107-129 | 0 AND NULL and 1 OR NULL decide like the short-circuit in Go, so an undefined right operand does not matter |
| `CdlCompile.ExprPreserved` | detect/expr/tosql.go:28-161 | whenever evaluation and compilation succeed and what is consulted is consistent, the SQL value encodes the Go value; undefined operands behind a short-circuit included |
| `CdlCompile.ConditionPreserved` | detect/expr/eval.go:27-40 | a condition's SQL truth value is the bool the evaluator yields |
| `CdlCompile.EqualSidedExactly` | detect/expr/tosql.go:112-161 | SQL finds `==` of two scalars to be a given truth value exactly when Go does if and only if: over a null, Go finds the other value, and else they are comparable; `!=` asks the opposite value |
| `CdlCompile.NotSidedExactly` | detect/expr/tosql.go:54-64 | `not` agrees on one truth value exactly when its operand agrees on the other |
| `CdlCompile.SidePreserved` | detect/expr/tosql.go:28-161 | a condition that may meet nulls: the compiled SQL is found true (or, asked so, false) exactly when the evaluator finds it so, unknown counting as neither |
| `CdlCompile.ConsistentIsSided` | detect/expr/eval.go:107-163 | agreement on both truth values is agreement on each, so the one-sided condition asks for less |
| `CdlFunctions.AssetGroupAgreesExactly` | detect/env.go:88-127 | a literal group name means the same list on both sides if and only if trimming its outer quotes leaves it alone or names no group |
| `CdlFunctions.AssetGroupAgrees` | detect/env.go:88-127 | so the two registries agree on every such call, whatever the row and environments |
| `CdlParser.Parser.Advance` | detect/expr/parser.go:32-38 | the cursor moves one token and never beyond the end token |
| `CdlParser.Parser.ParseOr` | detect/expr/parser.go:48-62 | the `or` loop reads what the table-driven parser reads at its level, and leaves the cursor where it stops |
| `CdlParser.Parser.ParseAnd` | detect/expr/parser.go:64-78 | the same for `and` |
| `CdlParser.Parser.ParseNot` | detect/expr/parser.go:80-90 | the same for prefix `not` |
| `CdlParser.Parser.ParseComparison` | detect/expr/parser.go:96-110 | at most one comparison operator: comparisons do not chain |
| `CdlParser.Parser.ParseAdditive` | detect/expr/parser.go:112-130 | left-associative + and - |
| `CdlParser.Parser.ParseMultiplicative` | detect/expr/parser.go:132-150 | left-associative * and / |
| `CdlParser.Parser.ParseUnary` | detect/expr/parser.go:152-162 | prefix minus |
| `CdlParser.Parser.ParsePrimary` | detect/expr/parser.go:164-206 | literals, parentheses and lists |
| `CdlParser.Parser.ParseName` | detect/expr/parser.go:207-247 | a call on a single name, or a dotted path with a name after every dot |
| `CdlParser.Parser.ParseItems` | detect/expr/parser.go:192-203 | comma-separated items without a trailing comma, then the closing token |
| `CdlParser.Parse` | detect/expr/parser.go:9-23 | the result is that of the specification: one expression and nothing after it |
| `CdlParser.ParseAt` | detect/expr/parser.go:48-252 | every success consumes at least one token, which with the precedence level is the termination measure |
| `CdlParser.Sound` | detect/expr/parser.go:48-252 | whatever parses at a level is a sentence of the grammar at that level with exactly that tree |
| `CdlParser.SentenceParses` | detect/expr/parser.go:48-252 | every sentence of a level, followed by a token that does not continue it, is read completely, to its own tree |
| `CdlParser.ParsesExactly` | detect/expr/parser.go:5-23 | a token list parses to a tree if and only if the documented grammar derives it with that tree |
| `CdlParser.Unambiguous` | detect/expr/parser.go:5-8 | one token string has one tree |
| `CdlParser.TighterFirst` | detect/expr/parser.go:5-8 | of two operators the tighter takes the operand between them, of two as tight the left one: `or`, `and`, comparisons, + and -, * and / |
| `CdlParser.ComparisonsDoNotChain` | detect/expr/parser.go:92-110 | two comparisons in a row are refused |
| `CdlParser.PrefixReach` | detect/expr/parser.go:80-162 | `not` reaches over everything but `and` and `or`, a minus over its operand only |
| `CdlParser.PrintParseRoundTrip` | detect/expr/parser.go:5-252 | printing with minimal parentheses and parsing returns the tree with its integer literals taken through float64; the very tree exactly when float64 holds them |
| `CdlParser.LargeLiteralChanges` | detect/expr/parser.go:164-172 | 2^53 + 1 reads back as 2^53 |
| `CdlParser.PrintIsShortest` | detect/expr/parser.go:5-8 | no sentence for the same tree has fewer tokens than the printed one |
| `CdlEvents.ResolvePath` | detect/path.go:13-29 | nested look-up by path |
| `CdlEvents.FormatIntInjective` | detect/path.go:63-79 | decimal rendering of integers is injective |
| `CdlEvents.GroupKeyFromGetter` | detect/path.go:44-57 | rendered values joined by the separator, or nothing when a field is absent |
| `CdlEvents.GroupKeyMeansTuple` | detect/path.go:44-79 | group keys are equal exactly when the value tuples are, for separator-free values of one kind per field |
| `CdlEvents.RenderMeaning` | detect/path.go:63-79 | text renders as itself, an integer as its decimal digits and sign, a bool as its name |
| `CdlEvents.SeparatorsCollide` | detect/path.go:44-57 | a value that contains the separator shares its key with another tuple |
| `CdlEvents.MixedKindsCollide` | detect/path.go:63-79 | a text and an integer that render alike share a group key |
| `CdlEvents.FlattenEvent` | detect/sql.go:32-45 | flattening stores every leaf under its joined name, in whatever order maps are walked |
| `CdlEvents.FlattenReadsBack` | detect/sql.go:25-45 | an unaliased path reads from its flattened column what it reads from the event |
| `CdlEvents.ColumnsCollide` | detect/sql.go:20-30 | a dotted path and one segment with an underscore share a column |
| `CdlAggregate.UnionGroupFields` | detect/aggregate.go:45-62 | the group fields of all sources, each once, in order of first mention |
| `CdlAggregate.UnionInOrder` | detect/aggregate.go:45-62 | each field stands in the place of its first mention among the sources |
| `CdlAggregate.EnumerateCases` | detect/aggregate.go:74-100 | the loop lists the specified cases |
| `CdlAggregate.CasesSound` | detect/aggregate.go:74-100 | case keys are distinct and every case is some event's tuple of values |
| `CdlAggregate.CasesComplete` | detect/aggregate.go:74-100 | every event carrying all fields has a case with its key |
| `CdlAggregate.ComputeAggregate` | detect/aggregate.go:108-189 | the single pass equals the declarative aggregate of the filtered matches, errors included |
| `CdlAggregate.DistinctCountsAt` | detect/aggregate.go:171-187 | a distinct count is the number of different rendered values, present when there is one |
| `CdlAggregate.TimeBounds` | detect/aggregate.go:150-163 | the tracked first and last times are the minimum and maximum, and attained |
| `CdlAggregate.LatestMeaning` | detect/aggregate.go:158-169 | with the first match's time above the int64 minimum, last_ts is the maximum, and a tracked field holds its value in the last match that was the latest when it came and carries the field, and nothing when there is none |
| `CdlAggregate.LatestWraps` | detect/aggregate.go:150-169 | with the first match at the int64 minimum the counter wraps: nothing is recorded before a match at the int64 maximum |
| `CdlAggregate.LatestCaptured` | detect/aggregate.go:158-169 | a field carried by the last-listed of the latest matches is remembered from there |
| `CdlStreaming.IsSuppressed` | detect/streaming.go:119-137 | suppress clauses are tried in order, the first true one suppressing |
| `CdlStreaming.FireEmits` | detect/streaming.go:79-109 | the emits of a case fire in order, each adding its claim when `when` holds |
| `CdlStreaming.AggregateSources` | detect/streaming.go:59-66 | one aggregate per source and case |
| `CdlStreaming.EvaluateStreaming` | detect/streaming.go:46-112 | the nested loops yield the specified claims, or an error exactly where one arises, as long as no two tracked fields of a source share a column name |
| `CdlMeaning.CountedExactly` | detect/aggregate.go:108-146 | an event counts for a case and source exactly when the filter holds of it and its group fields have the case's values |
| `CdlMeaning.AggregatesExactly` | detect/aggregate.go:108-146 | a case has an aggregate of a source exactly when its filter can be evaluated on every event |
| `CdlMeaning.CountsMean` | detect/env.go:32-49 | count and exists are the number of matches and whether there is one; without any the timestamps are 0 |
| `CdlMeaning.TimesMean` | detect/env.go:46-49 | first_ts and last_ts are the int64 `time` of a first and of a last match, one without counting as of time 0; but last_ts stays 0 when the match listed first is at the int64 minimum and none at the maximum |
| `CdlMeaning.DistinctMeans` | detect/env.go:50-53 | distinct_x is the number of different rendered values of the tracked field among the matches, 0 without any |
| `CdlMeaning.LastMeans` | detect/env.go:54-66 | last_x is the value in the last match that was the latest when it came and carries the field, null when there is none |
| `CdlMeaning.GroupFieldMeans` | detect/env.go:67-77 | a source's group field reads back the value that defines the case |
| `CdlMeaning.UnknownExactly` | detect/env.go:32-77 | a field is an error exactly when it is none of these |
| `CdlMeaning.EmptyWithoutFields` | detect/aggregate.go:114-124 | a case that lacks a group field of a source has its empty aggregate: 0, false, null, and no group field |
| `CdlMeaning.CaseOk` | detect/streaming.go:59-109 | a case whose aggregates exist is an error exactly when some suppress clause before the first true one, some `when` or the `observed` of one that holds cannot be evaluated |
| `CdlMeaning.CaseExactly` | detect/streaming.go:66-109 | a case some suppress clause silences makes no claim; any other exactly the claims of its emits that hold, in order, about its rendered entity (the rendering of null when the case has none) and with what they observe |
| `CdlMeaning.CasesInOrder` | detect/aggregate.go:74-100 | each case has the values of the first event with its key, and cases come in the order of those events |
| `CdlMeaning.StreamingExactly` | detect/streaming.go:46-112 | a run is an error exactly when some case is, and otherwise the claims of the cases in order, one case for each key that some event carrying all group fields of all sources has |
| `CdlQuery.AnchorSource` | detect/sql.go:52-80 | the first source with the most group fields, provided all other group fields are among its own |
| `CdlQuery.WidestIn` | detect/sql.go:59-64 | no source has more group fields than the one selected |
| `CdlQuery.CompileRuleSQL` | detect/sql.go:181-272 | the loops over sources, joins, emits and suppress clauses build the specified queries |
| `CdlErrors.CompilesExactly` | detect/expr/tosql.go:28-105 | an expression compiles exactly when no part of it is a list literal value, an unknown name, an unknown function or a call its function refuses |
| `CdlErrors.NamesKnownAlike` | detect/sql.go:139-176 | the compiler and the evaluator know the same names, in every case whose aggregates exist |
| `CdlErrors.AnchorExactly` | detect/sql.go:52-80 | the anchor is the first source no other has more group fields than, and there is one exactly when it has the fields of all |
| `CdlErrors.RuleCompilesExactly` | detect/sql.go:181-272 | a rule compiles exactly when it has an anchor and its filters, emits and suppress clauses compile |
| `CdlErrors.RunsExactly` | detect/sql.go:278-331 | a run is an error exactly when the rule does not compile, there is no column to make a table of, or the engine refuses a query |
| `CdlQuery.LoadEvents` | detect/sql.go:341-399 | every loaded row holds its event's flattened leaves and no row a column the table lacks |
| `CdlQuery.RunSQL` | detect/sql.go:278-331 | the claims are those of the compiled queries over some loading of the events |
| `CdlGroups.RowMembership` | detect/sql.go:82-137 | a row is in a case's group and satisfies WHERE exactly when its event does, events lacking fields of the where clause included |
| `CdlGroups.GroupAligned` | detect/sql.go:82-95 | the rows of a case's group are, position by position, the events the streaming aggregate matches |
| `CdlGroups.LastAgreesExactly` | detect/sql.go:106-131 | when the newest matches agree on a tracked field, the subquery's value encodes the remembered one if and only if the latest match carries the field, nothing was remembered, or null was |
| `CdlGroups.OneKindCounts` | detect/aggregate.go:171-187 | values of one kind are counted alike by rendering and by storing |
| `CdlGroupRecord.RowMirrors` | detect/sql.go:82-137 | a CTE row holds the Go aggregate: count, first and last times, and those distinct counts and last values both sides read alike |
| `CdlJoin.JoinMatches` | detect/sql.go:206-217 | the ON clause finds exactly the row of the case's own sub-key, or none |
| `CdlJoin.JoinPlan` | detect/sql.go:206-217 | one anchor row stays one row through all LEFT JOINs, each adding its source's columns or NULLs |
| `CdlCase.TimestampsAgreeExactly` | detect/env.go:46-49 | first_ts and last_ts agree with their columns exactly when the aggregate has a match |
| `CdlCase.DecodesExactly` | detect/runner.go:105-110 | an observed value read from SQL is the very value Go observed if and only if that is no bool and no float kept as an INTEGER |
| `CdlCase.WhereAgrees` | detect/sql.go:222-267 | WHERE ... AND NOT (...) holds exactly when the case is not suppressed and `when` holds |
| `CdlCase.FireAgrees` | detect/sql.go:222-269 | over one case's row an emit's query yields the streaming evaluator's claims |
| `CdlRule.LastEmitWins` | detect/sql.go:269-269 | the query kept for a predicate is that of its last emit |
| `CdlRule.JoinAllSum` | detect/sql.go:206-217 | the joins treat every starting row on its own |
| `CdlEquivalence.CasesMatchGroups` | detect/sql.go:181-272 | cases with an anchor match and anchor groups without a NULL key correspond one to one, with equal contributions |
| `CdlEquivalence.EmitEquivalence` | detect/sql.go:219-269 | one emit's claims over the cases are its query's claims, apart from cases without an anchor match and groups with a NULL key |
| `CdlEquivalence.ClaimsBalance` | detect/runner.go:238-242 | whenever both paths succeed under the stated conditions, the claims fired by the kept emit clauses and the queries' claims are the same with multiplicity, bools read as 0/1 and whole floats as integers, but for claims without an anchor match and rows without a key |
| `CdlEquivalence.RuleEquivalence` | detect/runner.go:238-242 | the two paths agree if and only if those one-sided claims and the lost emit clauses cancel out; so they do with distinct predicates, complete anchor matches and silent unanchored cases |
| `CdlEquivalence.RunEquivalence` | detect/runner.go:243-273 | running both paths over one corpus gives equal claims whenever both succeed |
| `CdlGuards.UnkeyedRow` | detect/sql.go:106-131 | every tracked column of a group with a NULL key is NULL, because `=` on NULL selects nothing |
| `CdlGuards.GuardedMeansNoUnkeyed` | detect/env.go:54-66 | a rule whose emits are guarded by `last_x != null` claims nothing about anchor matches that lack a case field |
| `CdlGuards.GuardedEquivalence` | detect/runner.go:238-242 | for such a rule the two paths agree although anchor matches may lack case fields |
| `CdlTravel.WhereMayMiss` | detect/env.go:11-15 | the shipped where clause is in order on events lacking its fields: both sides filter them out |
| `CdlTravel.TravelOk` | rules/impossible-travel.cdl.yaml:11-35 | the shipped impossible-travel rule meets the theorem's premises on every trip of two logins an hour apart, the first without a distance |
| `CdlTravel.GateApplies` | detect/runner.go:239-243 | so the equivalence gate's preconditions hold there |
| `CdlTravel.TripOutcome` | rules/impossible-travel.cdl.yaml:21-35 | what the rule streams for such a trip: a claim above 900 km, unless it ends in the corporate egress range |
| `CdlTravel.ShippedFixtures` | rules/impossible-travel.cdl.yaml:36-40 | the two shipped fixtures are such trips and stream what the rule's tests expect |
| `CdlTravel.TravelGuarded` | rules/impossible-travel.cdl.yaml:31-31 | its null guard makes it a guarded rule |
| `CdlTravelGate.BothPathsTravel` | rules/impossible-travel.cdl.yaml:11-35 | on every such trip, however its events are loaded, both paths succeed and make the same claims: one above 900 km, none into the corporate egress range |
| `CdlReplay.ReplayOutcome` | rules/token-replayed.cdl.yaml:13-22 | over any logins of any sessions, whatever their outcome, the shipped token-replayed rule streams one claim of exactly the sessions successfully used from k >= 2 addresses, observing k |
| `CdlReplay.OneSession` | rules/token-replayed.cdl.yaml:19-22 | of any logins of one session: the one claim with observed k exactly when they come from k >= 2 addresses |
| `CdlReplayGate.ReplayOk` | rules/token-replayed.cdl.yaml:13-22 | that rule meets the theorem's premises on any such logins |
| `CdlReplayGate.BothPathsReplay` | detect/runner.go:238-273 | so both paths succeed on them and make the same claims |
| `CdlDisagree.TwoEmitsDisagree` | detect/sql.go:269-269 | a rule with two emits of one predicate and an event on which both paths succeed and differ |
| `CdlDisagree.MixedKindsDisagree` | detect/path.go:63-79 | events whose group field is once 1 and once "1", on which both paths succeed and differ |
| `CdlDisagree.EmptyTimestampDisagrees` | detect/env.go:46-49 | a rule that reads the timestamp of a source without a match, on which both paths succeed and differ |
| `CdlDisagree.NullSuppressDisagrees` | detect/sql.go:243-263 | a suppress clause over a missing value, on which both paths succeed and differ |
| `Bytes.BigEndianInjective` | ledger/merkle.go:38-45 | big-endian bytes determine a number that fits |
| `Bytes.BigEndianAt` | ledger/merkle.go:38-45 | byte k is the number shifted right and truncated, as the loops compute it |
| `Bytes.NumberOfBigEndian` | ledger/merkle.go:38-45 | reading the bytes as a base-256 number gives the number back |
| `Bytes.BigEndianOrder` | ledger/cbor.go:82-102 | equally wide big-endian strings compare as their numbers |
| `Cbor.CompareBytes` | ledger/cbor.go:133-144 | the index loop decides lexicographic order, a proper prefix first |
| `Cbor.AppendHead` | ledger/cbor.go:82-102 | the switch appends the head in its five widths |
| `Cbor.HeadReadsBack` | ledger/cbor.go:82-102 | a head is self-delimiting and reads back as its major type and argument |
| `Cbor.HeadIsShortest` | ledger/cbor.go:79-102 | no head that reads back as the same argument is shorter |
| `Cbor.HeadSpelled` | ledger/cbor.go:82-102 | the head byte by byte: major type in the top three bits, then the argument itself or one, two, four or eight bytes of it |
| `Cbor.NumberExamples` | ledger/cbor.go:74-102 | the integers of Appendix A of RFC 8949 have the encodings listed there |
| `Cbor.EncodeValue` | ledger/cbor.go:27-72 | the encoder appends the specified bytes, fails exactly on an unsupported type anywhere inside, and -(n+1) stays within int64 |
| `Cbor.EncodeArray` | ledger/cbor.go:45-54 | items in order after the length head, the first failure ending it |
| `Cbor.EncodeMap` | ledger/cbor.go:104-131 | whatever order the map is walked in and however ties would be sorted, the entries come out in the one sorted order |
| `Cbor.KeyLessOrder` | ledger/cbor.go:113-119 | the key order is total, asymmetric and transitive |
| `Cbor.KeyOrder` | ledger/cbor.go:113-144 | bytewise order of encoded text keys is length first, then bytewise |
| `Cbor.AscendingUnique` | ledger/cbor.go:113-119 | a set of keyed entries has one ascending listing |
| `Cbor.SortSliceUnique` | ledger/cbor.go:117-119 | with distinct keys any inversion-free permutation, from a stable sort or not, is that listing |
| `Cbor.DecodeEncode` | ledger/cbor.go:27-131 | an encoding, whatever follows it, decodes to the value's meaning and leaves what follows |
| `Cbor.EncodingBinds` | ledger/cbor.go:27-131 | encode(a) + s = encode(b) + t forces equal meanings and s = t, over unbounded nesting |
| `Cbor.CanonicalEncoding` | ledger/cbor.go:10-25 | two values have one encoding if and only if they mean the same: integers as one range, maps without order |
| `Cbor.EvidenceIdBinds` | ledger/hash.go:33-39 | equal evidence ids mean equal events, or the two encodings collide |
| `Merkle.NextPowerOfTwo` | ledger/merkle.go:48-54 | the least power of two not below n |
| `Merkle.PadHash` | ledger/merkle.go:38-45 | the padding string is 0x02 and the index in eight big-endian bytes |
| `Merkle.BuildMerkleTree` | ledger/merkle.go:68-92 | the levels in full: ids hashed after 0x00, the padding at position i as the hash of 0x02 and i in eight bytes, pairs after 0x01; so level j holds the digests of the reference tree's subtrees of height j; an empty list is refused |
| `Merkle.LevelDigests` | ledger/merkle.go:17-92 | those digests for every position of every level |
| `Merkle.LevelSizes` | ledger/merkle.go:48-92 | the least power of two not below the list, halved from level to level down to one |
| `Merkle.RootOf` | ledger/merkle.go:96-99 | the root is the reference tree's digest |
| `Merkle.TreesBind` | ledger/merkle.go:17-36 | hash trees of any shapes with one digest are equal, or two strings hashed in them collide: domain prefixes keep leaves, nodes and padding apart |
| `Merkle.RootBindsList` | ledger/merkle.go:17-92 | two non-empty lists of any lengths with one root are equal, or an explicit collision between strings hashed for them |
| `Merkle.Prove` | ledger/merkle.go:116-137 | every index has a proof of log2(padded size) steps whose IsLeft bits are its binary digits and which climbs to the root, step k being the sibling, on its side, of the leaf's ancestor i / 2^k; other indices are refused |
| `Merkle.AncestorIsShift` | ledger/merkle.go:122-135 | halving k times gives that ancestor |
| `Merkle.VerifyInclusion` | ledger/merkle.go:147-157 | the loop accepts exactly the proofs that climb to the given root |
| `Merkle.ProofBindsId` | ledger/merkle.go:147-157 | a proof of any length that verifies proves that id stands at the index its bits spell, or collides |
| `Epoch.FillHeader` | ledger/epoch.go:43-49 | the 72-byte header: epoch number, root, previous chain hash |
| `Epoch.ComputeChainHash` | ledger/epoch.go:90-95 | the hash of header and signature |
| `Epoch.ChainBytesInjective` | ledger/epoch.go:40-49 | the chained string determines header and signature and is determined by them; the public key is not covered |
| `Epoch.SealEpoch` | ledger/epoch.go:54-75 | the seal's root is over the batch roots, its signature over the header; no batch roots is refused |
| `Epoch.SealHistory` | ledger/epoch.go:19-75 | sealing epoch by epoch with each prev the last chain hash yields a linked, faithful ledger |
| `Epoch.ChainBinds` | ledger/epoch.go:85-95 | two linked chains of any lengths with one final hash have the same headers and signatures, or a collision or a preimage of the all-zero hash is named |
| `Epoch.LastHashBindsHistory` | ledger/epoch.go:13-95 | the last chain hash also binds every batch root and evidence id list at every position |
| `Claims.Buffer.WriteStr` | kernel/src/canon.rs:12-16 | appends the length as four big-endian bytes, truncated to u32, and the string |
| `Claims.Buffer.WriteOptStr` | kernel/src/canon.rs:18-26 | appends a presence byte and the string |
| `Claims.Buffer.WriteI64` | kernel/src/canon.rs:28-30 | appends eight big-endian two's-complement bytes |
| `Claims.Buffer.WriteOptI64` | kernel/src/canon.rs:32-40 | appends a presence byte and the integer |
| `Claims.Buffer.WriteStrList` | kernel/src/canon.rs:46-51 | appends the count and every string in order |
| `Claims.ComputeClaimId` | kernel/src/claim.rs:104-124 | the id hashes the fields in order with the evidence sorted |
| `Claims.EncodingIdentifiesClaim` | kernel/src/claim.rs:99-124 | two claims with lengths below 2^32 are encoded alike if and only if they differ at most in the order of their evidence |
| `Claims.ClaimReadsBack` | kernel/src/claim.rs:104-124 | read from the front, what is hashed gives the fields in their order with their tag bytes, evidence sorted, and nothing after |
| `Kernel.NewPolicy` | kernel/src/policy.rs:58-74 | comparing neighbours accepts exactly the non-empty, strictly ascending threshold lists |
| `Kernel.ClassifyScore` | kernel/src/policy.rs:79-87 | the loop yields the severity of the last threshold met, starting from the lowest tier |
| `KernelProofs.ClassifyIsHighest` | kernel/src/policy.rs:75-87 | the severity is that of the highest threshold met, or of the lowest tier when none is |
| `Kernel.StableSort` | kernel/src/lib.rs:52-53 | a stable sort by id |
| `Kernel.ScoreClaims` | kernel/src/lib.rs:55-96 | the loop's scores, contributions, techniques and count are the specified tally, unusable claims skipped |
| `Kernel.SumScores` | kernel/src/lib.rs:113-131 | saturating total of the tactic scores in kill-chain order plus the chain bonus |
| `Kernel.ComputeVerdictHash` | kernel/src/verdict.rs:109-127 | hashes every field of the verdict but the hash |
| `Kernel.RunAdjudicate` | kernel/src/lib.rs:47-151 | the whole computation, never failing, is the specified verdict |
| `KernelProofs.WindowsFindPairs` | kernel/src/lib.rs:117-130 | the scan over windows of present tactics adds, in the same saturating order, every consecutive pair both present, once |
| `KernelProofs.TotalExact` | kernel/src/lib.rs:60-131 | when absolute contributions and multipliers fit in i64, the total is their plain sum |
| `KernelProofs.VerdictExplained` | kernel/src/lib.rs:131-133 | then confidence is the clamped sum of attributed weights and pair multipliers, and severity the class of that sum |
| `KernelProofs.TechniquesMeaning` | kernel/src/lib.rs:93-95 | the techniques are those of the usable claims' predicates, sorted, each once |
| `KernelProofs.IncompleteMeansUnusable` | kernel/src/lib.rs:98-111 | Incomplete if and only if no claim is usable |
| `KernelProofs.VerdictDependsOnIds` | kernel/src/lib.rs:41-53 | claim lists with one multiset of ids give the very same verdict although saturating addition is not associative, or two of their encodings collide |
| `KernelProofs.OrderDoesNotMatter` | kernel/src/lib.rs:41-151 | any permutation of the claims gives the same verdict, hash included, or two of its own encodings collide |
| `KernelProofs.VerdictBytesIdentify` | kernel/src/verdict.rs:103-127 | two verdicts hash the same bytes if and only if they agree in everything but the hash |
| `KernelMeaning.AttributionExplained` | kernel/src/lib.rs:75-96 | a verdict lists, by claim hash, exactly the claims with evidence and a priced predicate, each with the predicate's weight when it supports and the saturated negation when it refutes |
| `KernelMeaning.TacticTotals` | kernel/src/lib.rs:80-96 | where nothing overflows a tactic's score is the weight of its supporting claims less that of its refuting ones |
| `KernelMeaning.VerdictFromClaims` | kernel/src/lib.rs:41-151 | then confidence is the clamped, and severity the tier of, the supporting less the refuting weight plus the bonuses of the consecutive tactics present |
| `KernelMeaning.VerdictSpelled` | kernel/src/lib.rs:98-151 | every verdict: Incomplete, Info and 0 exactly without a claim that counts; else Malicious for high and critical, Suspicious for medium, Benign below; versions and hash |
| `KernelMeaning.KillChain` | kernel/src/tactic.rs:10-89 | the twelve tactics in order, adjacent exactly when one directly follows the other |
| `KernelMeaning.RefutingLowersScore` | kernel/src/lib.rs:80-84 | turning a supporting claim into a refuting one takes twice its weight off the score |
| `KernelMeaning.RefutingNeverRaises` | kernel/src/lib.rs:80-84 | so, for a non-negative weight, it never raises the confidence |
| `KernelMeaning.RefutingNeverRaisesTotal` | kernel/src/lib.rs:80-131 | nor, scored in one order, the total, saturation included |
| `KernelMeaning.TechniquesSpelled` | kernel/src/lib.rs:93-95 | the techniques are those the policy gives the predicates of claims that count, ascending, each once |
| `KernelMeaning.VerdictReadsBack` | kernel/src/verdict.rs:103-127 | read from the front, what is hashed gives the verdict's fields in their order and nothing after |
| `Repricing.MatchClaim` | services/adjudicate/attesta_adjudicate/indicator_corpus.py:38-44 | the first entry with the claim's predicate and object, none for a claim without an object |
| `Repricing.MatchesListed` | services/adjudicate/attesta_adjudicate/rvd.py:65-85 | the matches are those of the claims with an entry of their predicate and object, each with the first such entry, in claim order |
| `Repricing.CollectMatches` | services/adjudicate/attesta_adjudicate/rvd.py:65-85 | the scan fails exactly when two matches price one predicate differently, and else yields all matches and the overrides |
| `Repricing.ApplyOverrides` | services/adjudicate/attesta_adjudicate/rvd.py:90-104 | overrides applied in any order keep tactics, keep techniques unless new ones are given, and fail exactly on an unpriced predicate |
| `Repricing.BuildAugmentedPolicy` | services/adjudicate/attesta_adjudicate/rvd.py:54-104 | both failures exactly; on success every match's predicate weighs what its indicator says, with the techniques of the last match for it unless that list is empty and the base's tactic, and every unmatched predicate and other field is unchanged; without a match the base policy itself; the matches are those of all claims with an id |
| `Repricing.RaisedTotal` | kernel/src/lib.rs:84-131 | raising contributions claim by claim never lowers the saturating total |
| `Repricing.ClassifyRises` | kernel/src/policy.rs:79-87 | a higher score is never classified lower when higher tiers are at least as severe |
| `Repricing.RepricingNeverLowers` | services/adjudicate/attesta_adjudicate/rvd.py:54-104 | when matches only raise predicates all of whose usable claims support, confidence, severity and disposition never drop |
| `Investigate.AdmissionMeaning` | services/investigate/attesta_investigate/claim_gate.py:52-79 | admitted if and only if evidence is cited, all of it pinned, the predicate is registered and the interval lies in the window |
| `Investigate.GateTurn` | services/investigate/attesta_investigate/investigator.py:75-83 | a turn's proposals go through the gate one by one |
| `Investigate.RunCalls` | services/investigate/attesta_investigate/investigator.py:93-108 | calls are counted one by one and the loop stops at the first beyond the budget |
| `Investigate.RunInvestigation` | services/investigate/attesta_investigate/investigator.py:52-115 | accepted and rejected are the gate's answers to all proposals of the turns run, in order; results never exceed the budget |
| `Investigate.GateConserves` | services/investigate/attesta_investigate/investigator.py:75-83 | every proposal is accepted or rejected, none twice |
| `Investigate.RejectionsAreReasoned` | services/investigate/attesta_investigate/claim_gate.py:52-79 | a rejection names the first failing check |
| `Investigate.TurnsBounded` | services/investigate/attesta_investigate/investigator.py:72-73 | no more turns than the budget allows |
| `Investigate.TurnsExactly` | services/investigate/attesta_investigate/investigator.py:72-115 | each turn is the provider's reply to the results so far; the loop goes on exactly after turns whose calls fit the budget; exhausted exactly unless it ended with a turn without calls |
| `Investigate.RejectedDoNotInfluence` | services/investigate/attesta_investigate/claim_gate.py:8-14 | adding or dropping rejected proposals in any turns changes neither accepted claims, nor the budget flag, nor the verdict |
| `Investigate.ProposalOrderDoesNotMatter` | services/investigate/attesta_investigate/investigator.py:75-83 | nor does the order of admitted claims change the verdict, or two encodings collide |
| `Investigate.KernelSeesPinnedEvidenceOnly` | services/investigate/attesta_investigate/claim_gate.py:8-14 | every claim that reaches the kernel cites pinned evidence only |
| `Investigate.NothingAdmittedNoOpinion` | services/investigate/attesta_investigate/claim_gate.py:52-79 | without an admissible proposal the verdict is Incomplete |
| `SpillBuffer.BoundedBuffer.Push` | agent/buffer.go:82-104 | the whole new state of a push: memory, or a numbered file, or a failed write |
| `SpillBuffer.BoundedBuffer.Take` | agent/buffer.go:109-143 | the locked half of Next: memory first, then the oldest file, ending the spill mode with the last; with neither, false exactly when closed and waiting exactly when open |
| `SpillBuffer.BoundedBuffer.ReadFile` | agent/buffer.go:125-135 | the unlocked half: read, then remove |
| `SpillBuffer.BoundedBuffer.Close` | agent/buffer.go:148-153 | only the closed flag changes |
| `SpillBuffer.NewBoundedBuffer` | agent/buffer.go:52-61 | a capacity that is not positive is refused |
| `SpillBuffer.StepKeeps` | agent/buffer.go:63-153 | every atomic step keeps the invariant |
| `SpillBuffer.EveryRunIsSafe` | agent/buffer.go:82-153 | after any interleaving by any consumers, write failures included: memory within capacity; pushed = dequeued, then memory, then disk; nothing lost or duplicated; every read finds its bytes; false only after Close with nothing left |
| `SpillBuffer.EveryActionListRuns` | agent/buffer.go:82-153 | every list of actions has a run |
| `SpillBuffer.OneConsumerIsFifo` | agent/buffer.go:23-33 | a single consumer is handed the events in the order pushed |
| `SpillBuffer.EndsAfterClose` | agent/buffer.go:137-140 | in every run that closes the buffer a consumer without a read under way who finds nothing left is told so |
| `SpillBuffer.DrainsAfterClose` | agent/buffer.go:106-153 | once closed, with no more pushes, a consumer takes all that is left in as many rounds and is then told that it is over; everything pushed has been taken |
| `SpillBuffer.MemoryAfterPushExactly` | agent/buffer.go:28-33 | once everything is drained the next event goes to memory again if and only if the push before found room, wrote its file, or files were waiting |
| `SpillBuffer.RecoversWithNextFile` | agent/buffer.go:92-143 | an emptied buffer left spilling stays so through further failed writes and recovers with the next file written and taken |
| `SpillBuffer.FailedWriteRun` | agent/buffer.go:92-100 | such a state is reachable: a run of three actions ends in it |
| `Quadtree.QuadrantsPartition` | web/src/components/investigation-canvas/quadtree.ts:38-50 | a point of a rectangle lies in exactly one quadrant, any other in none |
| `Quadtree.InsertStores` | web/src/components/investigation-canvas/quadtree.ts:38-72 | an insertion stores exactly its point if it is within bounds, through all splits, each point in its own leaf |
| `Quadtree.BuildStores` | web/src/components/investigation-canvas/quadtree.ts:99-102 | a tree over any points stores exactly the multiset of those inside its bounds |
| `Quadtree.QueryAnswers` | web/src/components/investigation-canvas/quadtree.ts:74-94 | a range query returns all stored points of the half-open range with their multiplicity and nothing outside the closed one |
| `Quadtree.BuiltBalanced` | web/src/components/investigation-canvas/quadtree.ts:27-72 | in every built tree a region is split exactly when it holds more than 8 points, unless it is at depth 12 |
| `Quadtree.QueryExactly` | web/src/components/investigation-canvas/quadtree.ts:74-94 | a point comes back, as often as stored, if and only if it lies in the closed range and its leaf's rectangle meets the range's interior |
| `Quadtree.QueryInCoordinates` | web/src/components/investigation-canvas/quadtree.ts:11-94 | the same in plain coordinates, for trees built from any points |
| `Quadtree.OffEdgesIsScan` | web/src/components/investigation-canvas/quadtree.ts:74-94 | with no stored point on the range's right or bottom edge the query is the linear scan |
| `Quadtree.SameStoredSameAnswer` | web/src/components/investigation-canvas/quadtree.ts:27-94 | trees over one rectangle that store the same points answer alike, edges included |
| `Quadtree.InsertionOrderIrrelevant` | web/src/components/investigation-canvas/quadtree.ts:99-102 | the order of insertion never changes an answer |
| `Quadtree.OtherPointsChangeEdgeAnswers` | web/src/components/investigation-canvas/quadtree.ts:74-94 | eight further points make a query miss an edge point it returned before |
| `Quadtree.NearestIsClosest` | web/src/components/investigation-canvas/quadtree.ts:104-121 | nearest returns a closest stored point whenever one is strictly within the radius, and never one beyond it |
| `Quadtree.NearestExactly` | web/src/components/investigation-canvas/quadtree.ts:104-121 | of the points found in the square of twice the radius, the last of the closest within the radius, and nothing exactly when there is none |
| `QuadIndex.QuadNode.Insert` | web/src/components/investigation-canvas/quadtree.ts:61-72 | the mutable node refines the value-level insertion |
| `QuadIndex.QuadNode.InsertIntoChildren` | web/src/components/investigation-canvas/quadtree.ts:52-59 | only the first containing child changes |
| `QuadIndex.QuadNode.Subdivide` | web/src/components/investigation-canvas/quadtree.ts:38-50 | four fresh children receive all points |
| `QuadIndex.QuadNode.QueryRange` | web/src/components/investigation-canvas/quadtree.ts:74-85 | pushes exactly the specified points, in order |
| `QuadIndex.Quadtree.constructor` | web/src/components/investigation-canvas/quadtree.ts:99-102 | the tree over the given points |
| `QuadIndex.Quadtree.Nearest` | web/src/components/investigation-canvas/quadtree.ts:104-121 | the scan over the candidates of the enclosing square |
| `QuadIndex.Quadtree.InRange` | web/src/components/investigation-canvas/quadtree.ts:123-128 | the specified range query |
| `Mapping.FindPath` | ingest/mapping.go:207-222 | nested look-up, nothing when a segment is missing or not an object |
| `Mapping.SetReadsBack` | ingest/mapping.go:224-239 | a written path reads back its value |
| `Mapping.SetLeavesOthers` | ingest/mapping.go:224-239 | a write changes no reading at an unrelated path |
| `Mapping.OrdersAgreeExactly` | ingest/mapping.go:224-239 | two scalar writes to different paths give one tree in both orders if and only if neither path is a prefix of the other |
| `Mapping.ConvertPassthrough` | ingest/mapping.go:172-205 | recursive conversion succeeds exactly when every number inside is a whole int64, and changes nothing else |
| `Mapping.OrderIrrelevant` | ingest/mapping.go:97-109 | when no target the event fills is a prefix of another it fills, but for those leftover fields replace, all orders of the fields give the same tree or all fail |
| `Mapping.MapFields` | ingest/mapping.go:97-109 | the loop in a given map order: absent fields skipped, a failing conversion ends it, consumed top-level names collected |
| `Mapping.KeepLeftover` | ingest/mapping.go:112-122 | the unconsumed fields converted, or an error exactly when one does not convert |
| `Mapping.Apply` | ingest/mapping.go:90-129 | the whole of Apply for a given map order |
| `Mapping.ApplySucceeds` | ingest/mapping.go:90-129 | Apply succeeds, in whatever order, if and only if every present field converts and, with passthrough, every leftover field passes |
| `Mapping.DeterministicExactly` | ingest/mapping.go:90-129 | the result is the same for all orders if and only if Apply fails in all, or no two present fields have related targets, but for targets under `unmapped` that leftover fields replace |
| `Mapping.ApplyReadsBack` | ingest/mapping.go:90-129 | a mapped value is read at its target if and only if no related present field is written after it and leftover fields do not replace it under `unmapped` |
| `Mapping.PassedExactly` | ingest/mapping.go:172-205 | a leftover value passes exactly when some tree is the same with each number turned into its int64, and that tree comes out |
| `Mapping.TopLevel` | ingest/mapping.go:90-129 | the top level has the three provenance fields, the first segments of filled targets and, when asked for and needed, `unmapped`; provenance reads as configured unless a target takes its place |
| `Mapping.UnmappedTargetIsLost` | ingest/mapping.go:111-126 | a mapping to `unmapped` itself whose value is overwritten |
| `Mapping.NothingDropped` | ingest/mapping.go:111-126 | with passthrough on, `unmapped` holds exactly the unconsumed top-level fields, converted |

## Left out

- SQLite itself, `database/sql` and the SQL text: a compiled query is a term with relational meaning, so quoting, table creation, type affinity and the printing of negative literals (the parser produces none) are not part of the model. Operators are constructors, not strings.
- `Parse` inside rules: rules hold expression trees, and the lexer (Unicode classes, escapes) is left out; the parser starts from tokens. Out-of-range integer literals take the value amd64 gives them.
- The alphabetical order of source names: a field of the rule, any listing of its sources, stands for the sorted names.
- Floats beyond the int64-to-float64 conversion: float values are reals, division is exact, and events carry no floats.
- CdlEquivalence.RuleEquivalence: compares observed values with bools read as 0/1 and whole floats as integers, because the comparison of printed values in detect/runner.go:105-110 tells those apart.
- CdlEquivalence.ClaimsBalance: group fields that are null or of several kinds, and identifiers under an ambiguous column name, are outside its premises.
- baseline_is_novel, `detect/stats` and windows: `window` is informational, and the baseline's subquery yields NULL where Go yields false.
- Error texts: an error is an error.
- BLAKE3 and Ed25519 themselves, and signature verification.
- Merkle.BuildMerkleTree: does not model the overflow of the doubling loop beyond 2^62 leaves, because no such list can be held in memory.
- Claims.EncodingIdentifiesClaim: assumes lengths below 2^32, because the encoder truncates longer lengths to u32.
- Repricing: Python's unbounded weights and intervals are int64 here, as the kernel requires of its input; `run_sweep` only loops over cases.
- Investigate.RejectedDoNotInfluence: leaves out the hypothesis set, because it deliberately counts rejected proposals too.
- SpillBuffer: mutex and condition-variable internals, read errors and files left by earlier runs; the spill directory belongs to one buffer, and the file counter does not wrap.
- Quadtree: coordinates are exact reals, not IEEE-754 doubles.
- Mapping: nested maps are values, not references; this loses nothing because converted values are scalars, so no map is shared. JSON and YAML loading and RFC 3339 parsing are parameters.
- Blast radius, redaction, manifests, hex codecs, CLIs, bridges, HTTP, user interface: plumbing, or only easy members.
