# AI test-case generator — a Dafny model of its core

The ai-testcase-generator turns a natural-language requirement, together
with definitions of its input and output parameters, into test cases that
trace back to behavioural rules, and exports them as spreadsheets with a
coverage summary and a requirement → rule → test-case traceability matrix.

This project models the core of that system and proves properties of the
model. It covers two parts.

**The backend pipeline** (`backend/`):

| module | file | models |
|---|---|---|
| `Common`, `JsonData`, `Schemas` | common.dfy, schemas.dfy | the records of `backend/models/schemas.py`, the AI answer as a JSON value, ordered dicts, `lower()`, `int()`, `split`/`trim` |
| `Numbering` | numbering.dfy | the shared `tc_counter` dict as class `TcCounter` and the `TC_<req>_<n>` ids |
| `Validator` | ai_output_validator.dfy | `validate_interpretation` and `check_for_inventions` |
| `Interpreter` | requirement_interpreter.dfy | `RequirementInterpreter.interpret`, with the AI client as a parameter |
| `Strategy` | test_strategy_engine.dfy | `determine_strategies` |
| `InputValues` | input_value_generator.dfy | `infer_range` and the BVA, EP, negative and MC/DC value generators |
| `Oracle` | test_oracle.dfy | `compute_expected_output` and its discrete, boolean, arithmetic and common-sense parts |
| `Builder` | test_case_builder.dfy | `build_test_cases` with the BVA, EP and negative generators and the nominal value |
| `Mcdc` | mcdc_engine.dfy | `generate_mcdc_tests` and its true/false values |
| `StateTests` | state_test_engine.dfy | `generate_state_tests` |
| `Coverage` | coverage_engine.dfy | the traceability matrix and the coverage report |
| `Endpoint` | main.dfy | the body of `POST /generate-test-cases`: the BLOCKED branch, the pipeline and the error mapping |

**The frontend workflow** (`frontend/src/`):

| module | file | models |
|---|---|---|
| `RequirementForm` | requirement_form.dfy | the guard of `handleSubmit` |
| `InputDefinition` | input_definition.dfy | class `InputForm`: the draft, `addInput`, `removeInput`, `handleNext` |
| `OutputDefinition` | output_definition.dfy | class `OutputForm`: the draft, `addOutput`, `removeOutput`, `handleNext` |
| `Selection` | selection.dfy | `toggleTestCase`, `toggleAll` and the header checkbox of `TestCaseTable` |
| `Workflow` | generator_page.dfy | class `GeneratorPage`: the six-step state machine, generation and the ambiguity gate |
| `ExcelExport` | excel_exporter.dfy | grouping, sheet naming and rows of the three export functions |
| `ExportPanel` | export_panel.dfy | the subset filter, the arguments handed to the exports, the raw JSON object |

Imperative code is modelled in imperative form. The loops that build lists
and dicts are methods, each proved equal to a specification function:
strategies, test values, the test-case builders, the oracle's output
loop, the matrix and report, the validator's warning loop and the Excel
grouping. The properties are proved about those functions. The shared test-case counter is a class, and
so is each piece of page state the handlers update. Python numbers and
JavaScript numbers are `real`, and `int(x)` is truncation toward zero.
Dicts whose order is observable are ordered entry lists; the test-case
`inputs` and `expected_output` maps are `map<string, Value>`.

The page's state machine is written twice: once as a transition function
`Next` on a value `PageState`, and once as the methods of `GeneratorPage`,
each proved to move the object's state by `Next`. Invariants are proved
over any sequence of events the page offers. One is the ambiguity gate:
the test-case and export steps are reached only with an OK interpretation.

Where the code behaves differently from how the system's design describes
it, the model follows the code:

- `toggleAll` compares the number of selected ids with the number of test
  cases, not the sets (`Selection.HeaderCountsOnly`,
  `Selection.ToggleAllTwiceClears`).
- `rules_covered` counts the distinct `rule_id`s of the test cases without
  intersecting them with the rules, so the percentage can exceed 100
  (`Coverage.CoverageCanExceed100`).
- The BLOCKED response reports `total_rules` as the number of rules while
  its `rule_coverage` is empty (`Endpoint.BlockedReportCountsRulesOnly`).
- A requirement form whose fields are only spaces passes the guard
  (`RequirementForm.BlankFieldsPass`).
- Nothing stops a second generation from being started while one is
  pending; only the button's `loading` state is modelled.
- The "Generate Test Cases" button is hidden for a BLOCKED interpretation,
  but the handler checks the status itself; the model keeps the handler's
  check.
- The `username` entry of `DOMAIN_DEFAULTS` is never reached because
  `name` comes first (`InputValues.UsernameDefaultUnreachable`).

## Model

| member | source | states |
|---|---|---|
| Common.NumericOf | ai-testcase-generator/backend/services/test_oracle.py:254 | `isinstance(v, (int, float))` holds for numbers and, since bool is a subclass of int, for booleans |
| Common.Trunc | ai-testcase-generator/backend/services/input_value_generator.py:143 | `int(x)` truncates toward zero |
| Common.NatToStringInjective | ai-testcase-generator/backend/services/mcdc_engine.py:37 | the decimal rendering of the counter is injective |
| Common.Lookup | ai-testcase-generator/backend/services/test_case_builder.py:84-89 | a key reads a value exactly when the dict has an entry for it |
| Common.PutLookup | ai-testcase-generator/backend/services/test_case_builder.py:89 | after `d[k] = v`, k reads v, every other key reads as before, and the dict grows only for a new key |
| Common.ToMapLookup | ai-testcase-generator/backend/services/test_case_builder.py:110 | the finished dict as a map has the same keys and values |
| Common.SplitJoin | ai-testcase-generator/frontend/src/components/InputDefinition.jsx:25 | joining the pieces of `split(',')` with the separator gives the text back |
| Common.SplitPiecesFree | ai-testcase-generator/frontend/src/components/InputDefinition.jsx:25 | no piece of a split contains the separator |
| Common.TrimTrimmed | ai-testcase-generator/frontend/src/components/InputDefinition.jsx:25 | `trim()` leaves no space at either end and adds no character |
| Common.NonBlankItems | ai-testcase-generator/frontend/src/components/InputDefinition.jsx:25 | the kept items are trimmed and non-empty |
| Common.CommaList | ai-testcase-generator/frontend/src/components/InputDefinition.jsx:24-26 | null exactly for the empty text; otherwise trimmed, non-empty items |
| Common.CommaListItemsCommaFree | ai-testcase-generator/frontend/src/components/InputDefinition.jsx:25 | no item contains a comma |
| Common.SplitJoinInverse | ai-testcase-generator/frontend/src/components/InputDefinition.jsx:25 | splitting a join of separator-free pieces gives the pieces back |
| Common.CommaListJoin | ai-testcase-generator/frontend/src/components/InputDefinition.jsx:24-26 | the list field reads back a comma-joined list of clean items |
| Common.RemoveAtSpec | ai-testcase-generator/frontend/src/components/InputDefinition.jsx:41-43 | removing a position drops exactly that element and keeps the rest in order; an index outside the list changes nothing |
| Coverage.RelatedTcs | ai-testcase-generator/backend/services/coverage_engine.py:24-27 | the ids related to a rule are never more than the test cases |
| Coverage.RelatedTcsAppend | ai-testcase-generator/backend/services/coverage_engine.py:24-27 | the comprehension keeps test-case order: related ids of a concatenation are the concatenation of related ids |
| Coverage.RelatedTcsMembers | ai-testcase-generator/backend/services/coverage_engine.py:24-27 | an id is listed for a rule exactly when some test case with that id names the rule |
| Coverage.RelatedTcsLength | ai-testcase-generator/backend/services/coverage_engine.py:24-27 | one listed id per test case naming the rule |
| Coverage.DistinctIdsSpec | ai-testcase-generator/backend/services/coverage_engine.py:21-28 | re-assigning a dict key keeps its first position: the keys hold each rule id once, and only rule ids |
| Coverage.GenerateTraceabilityMatrix | ai-testcase-generator/backend/services/coverage_engine.py:11-36 | one entry per distinct rule id in first-appearance order, each holding the related test-case ids; the requirement id is the first test case's, or "UNKNOWN" without test cases |
| Coverage.MatrixCoversRules | ai-testcase-generator/backend/services/coverage_engine.py:19-28 | every rule's id maps to its related ids, every key is some rule's id, no key repeats |
| Coverage.LookupFinds | ai-testcase-generator/backend/services/coverage_engine.py:28 | reading a key of the matrix finds its entry |
| Coverage.ValidityPartition | ai-testcase-generator/backend/services/coverage_engine.py:62-64 | valid and invalid counts add up to the total |
| Coverage.GenerateCoverageReport | ai-testcase-generator/backend/services/coverage_engine.py:39-75 | total rules, covered = number of distinct rule ids named by test cases, percentage covered/total*100 (0 without rules), valid/invalid/total counts partitioning the list, techniques = each test type once |
| Coverage.PercentageAtMost100 | ai-testcase-generator/backend/services/coverage_engine.py:50-56 | when every test case names a listed rule the percentage lies in 0..100 |
| Coverage.FullCoverageIs100 | ai-testcase-generator/backend/services/coverage_engine.py:50-56 | distinct rule ids, every rule with a case and every test on a listed rule give exactly 100 |
| Coverage.DistinctRuleIdsCard | ai-testcase-generator/backend/services/coverage_engine.py:48 | distinct rule ids make the id set as large as the rule list |
| Coverage.CoverageCanExceed100 | ai-testcase-generator/backend/services/coverage_engine.py:51-56 | covered rules are not intersected with the listed rules: one rule and tests on two ids report 200 |
| Strategy.Techniques | ai-testcase-generator/backend/services/test_strategy_engine.py:28-64 | one to five techniques per rule, NEGATIVE always among them |
| Strategy.TechniquesExactlyWhenChosen | ai-testcase-generator/backend/services/test_strategy_engine.py:31-62 | after de-duplication each technique occurs once when its condition holds (numeric input or boundary values for BVA; discrete input, partition keyword or numeric input for EP; compound keyword for MCDC; state keyword for STATE; always NEGATIVE) and never otherwise |
| Strategy.StrategyMapKeys | ai-testcase-generator/backend/services/test_strategy_engine.py:25-68 | the strategy map has exactly the rule ids as keys |
| Strategy.StrategyMapLastWins | ai-testcase-generator/backend/services/test_strategy_engine.py:66 | with repeated rule ids the last such rule decides the techniques |
| Strategy.DetermineStrategies | ai-testcase-generator/backend/services/test_strategy_engine.py:9-68 | the loop builds the strategy map; boundary values count when non-empty |
| Numbering.TcIdInjective | ai-testcase-generator/backend/services/mcdc_engine.py:37 | ids `TC_<requirement>_<n>` of one requirement are equal only for equal numbers |
| Numbering.TcCounter.Next | ai-testcase-generator/backend/services/mcdc_engine.py:37-38 | the id is formatted from the current count, then the shared count goes up by one |
| Numbering.NumberedAppend | ai-testcase-generator/backend/services/mcdc_engine.py:62-63 | blocks numbered one after the other from the shared counter form one consecutively numbered list |
| Numbering.NumberedDistinct | ai-testcase-generator/backend/services/mcdc_engine.py:37-38 | consecutively numbered test cases have pairwise distinct ids |
| Numbering.ChainNumbered | ai-testcase-generator/backend/services/mcdc_engine.py:37-38 | generators run one after another on the shared counter yield one consecutively numbered list |
| Numbering.ChainEvery | ai-testcase-generator/backend/services/mcdc_engine.py:40-53 | a property every generator's block has, the concatenated list has |
| Mcdc.ConditionVariables | ai-testcase-generator/backend/services/mcdc_engine.py:83-89 | exactly the input names whose lowercase form occurs in the lowercased condition, at most one per input |
| Mcdc.ExtractConditionVariables | ai-testcase-generator/backend/services/mcdc_engine.py:83-89 | the loop returns those names in input order |
| Mcdc.TrueAndFalseDiffer | ai-testcase-generator/backend/services/mcdc_engine.py:92-113 | the false value differs from the true value unless the range is inverted or the first allowed value is "INVALID_VALUE" |
| Mcdc.FirstNamed | ai-testcase-generator/backend/services/mcdc_engine.py:33 | finds an input of that name exactly when one exists, and returns one of that name |
| Mcdc.AllTrueInputs | ai-testcase-generator/backend/services/mcdc_engine.py:31-35 | keys are the condition variables that name an input |
| Mcdc.McdcCases | ai-testcase-generator/backend/services/mcdc_engine.py:9-80 | no variables give no cases; otherwise one all-true case plus one case per variable |
| Mcdc.McdcCasesNumbered | ai-testcase-generator/backend/services/mcdc_engine.py:37-63 | the cases carry consecutive ids from the counter's start and trace to the requirement and rule |
| Mcdc.McdcCasesPriorities | ai-testcase-generator/backend/services/mcdc_engine.py:40-78 | every case is a VALID "MC/DC" case; the all-true case is HIGH, the others MEDIUM |
| Mcdc.OneFalseDiffersAtItsVariable | ai-testcase-generator/backend/services/mcdc_engine.py:56-78 | each one-false case is the all-true inputs with only its own variable set to the false value, and its expected result names that variable |
| Mcdc.GenerateMcdcTests | ai-testcase-generator/backend/services/mcdc_engine.py:9-80 | returns the specified cases numbered from the counter's old value and advances the counter by their number |
| Mcdc.AppendOneFalse | ai-testcase-generator/backend/services/mcdc_engine.py:56-78 | the second loop yields the one-false cases and advances the counter |
| Mcdc.BuildAllTrueInputs | ai-testcase-generator/backend/services/mcdc_engine.py:31-35 | the first loop builds the all-true inputs |
| StateTests.FindStateVariable | ai-testcase-generator/backend/services/state_test_engine.py:89-94 | the first input whose lowercase name contains "state", "status", "mode" or "phase", or none |
| StateTests.States | ai-testcase-generator/backend/services/state_test_engine.py:29-33 | the allowed values, or the four defaults INIT, ACTIVE, IDLE, ERROR; never empty |
| StateTests.PairsMembers | ai-testcase-generator/backend/services/state_test_engine.py:36-38 | the transitions are exactly the ordered pairs of different listed states |
| StateTests.PairsCount | ai-testcase-generator/backend/services/state_test_engine.py:36-38 | n distinct states give n*(n-1) transitions |
| StateTests.OtherInputs | ai-testcase-generator/backend/services/state_test_engine.py:45-50 | nominal values only for other inputs, never for the state variable |
| StateTests.TransitionCasesAt | ai-testcase-generator/backend/services/state_test_engine.py:36-65 | the i-th transition case is the case for the i-th pair, numbered start+i |
| StateTests.StateCasesNumbered | ai-testcase-generator/backend/services/state_test_engine.py:23-69 | no state variable gives no cases; otherwise the cases carry consecutive ids and trace to the requirement and rule |
| StateTests.StateCasesShape | ai-testcase-generator/backend/services/state_test_engine.py:36-84 | one VALID MEDIUM case per transition starting in `from` and expecting `to`, then one INVALID HIGH case with "INVALID_STATE" expecting REJECTED |
| StateTests.StateCaseCount | ai-testcase-generator/backend/services/state_test_engine.py:36-84 | n distinct states give n*(n-1)+1 cases |
| StateTests.GenerateStateTests | ai-testcase-generator/backend/services/state_test_engine.py:9-86 | returns the specified cases numbered from the counter's old value and advances the counter by their number |
| StateTests.AppendTransitions | ai-testcase-generator/backend/services/state_test_engine.py:36-65 | the outer loop yields the cases of all ordered pairs |
| StateTests.AppendTargets | ai-testcase-generator/backend/services/state_test_engine.py:37-65 | the inner loop yields one case per other target state |
| StateTests.OtherNominals | ai-testcase-generator/backend/services/state_test_engine.py:45-50 | the loop builds the nominal values of the other inputs |
| Validator.FirstMissing | ai-testcase-generator/backend/validators/ai_output_validator.py:15-28 | the first required field, in the listed order, that the answer lacks |
| Validator.FirstBadRule | ai-testcase-generator/backend/validators/ai_output_validator.py:43-48 | the first rule that is not an object with rule_id, condition and expected_behavior |
| Validator.ValidateInterpretation | ai-testcase-generator/backend/validators/ai_output_validator.py:8-69 | passes exactly when every check passes, with "Validation passed"; otherwise the message of the first failing check: missing field, bad status, BLOCKED without ambiguities, rules not a list, the first malformed rule, constraints, assumptions or ambiguities not a list, boundary values not a dict, OK without rules |
| Validator.LaterChecks | ai-testcase-generator/backend/validators/ai_output_validator.py:39-69 | the checks after the status pass exactly when the rules are a list of rule-shaped entries, the three lists are lists, the boundary values a dict, and an OK answer has rules; a non-list or the first malformed rule gets its own message |
| Validator.BadRuleReported | ai-testcase-generator/backend/validators/ai_output_validator.py:35-48 | once the fields are present and the status is OK, or BLOCKED with ambiguities, a malformed rule is reported by its index, and only the first one |
| Validator.OkWithoutRulesRejected | ai-testcase-generator/backend/validators/ai_output_validator.py:65-67 | an OK answer with no rules is refused |
| Validator.UnknownWarnings | ai-testcase-generator/backend/validators/ai_output_validator.py:82-84 | at most one warning per boundary-value key |
| Validator.UnknownWarningsEmpty | ai-testcase-generator/backend/validators/ai_output_validator.py:82-86 | no warnings exactly when every key names an input |
| Validator.CheckForInventions | ai-testcase-generator/backend/validators/ai_output_validator.py:72-89 | safe exactly when every boundary-value key names an input, with "No inventions detected"; otherwise the warnings joined by "; " in key order |
| Interpreter.AsStrings | ai-testcase-generator/backend/services/requirement_interpreter.py:53-62 | a `List[str]` field converts exactly when every item is a string, and converts back to the same items |
| Interpreter.AsRule | ai-testcase-generator/backend/services/requirement_interpreter.py:45-49 | a rule converts exactly when it is rule-shaped with string fields, and its fields are the entries of the same name |
| Interpreter.AsRules | ai-testcase-generator/backend/services/requirement_interpreter.py:44-51 | one rule per item, in order |
| Interpreter.Convert | ai-testcase-generator/backend/services/requirement_interpreter.py:53-62 | every field of the result comes from the entry of the same name; conversion fails only where some value has the wrong type |
| Interpreter.Interpreted | ai-testcase-generator/backend/services/requirement_interpreter.py:13-64 | a client error passes through; a failed validation raises ValueError("AI output validation failed: ..."); a success copies the answer's fields and adds exactly one "WARNING: ..." assumption when some boundary value names no input |
| Interpreter.ValidShape | ai-testcase-generator/backend/services/requirement_interpreter.py:38-41 | a validated answer has an assumptions list and a boundary-values object, so the append cannot fail |
| Interpreter.AsStringsAppend | ai-testcase-generator/backend/services/requirement_interpreter.py:41 | a string list with strings appended converts to the old list plus the appended strings |
| Interpreter.Interpret | ai-testcase-generator/backend/services/requirement_interpreter.py:13-64 | calling the client, validating, appending the warning in place and converting gives the specified outcome |
| Interpreter.NoWarningKeepsAssumptions | ai-testcase-generator/backend/services/requirement_interpreter.py:37-41 | when every boundary value names an input, the assumptions are exactly the answer's |
| InputValues.FirstDomainHit | ai-testcase-generator/backend/services/input_value_generator.py:52-58 | the first domain key, in table order, contained in the lowercased name |
| InputValues.DomainDefaultsOrdered | ai-testcase-generator/backend/services/input_value_generator.py:9-38 | every domain default is a proper interval |
| InputValues.UnitRange | ai-testcase-generator/backend/services/input_value_generator.py:61-78 | every unit hint is a proper interval |
| InputValues.TypeRange | ai-testcase-generator/backend/services/input_value_generator.py:81-105 | every type default is a proper interval |
| InputValues.InferRange | ai-testcase-generator/backend/services/input_value_generator.py:40-105 | explicit bounds when both are set; otherwise a proper interval, the first matching domain default when there is one |
| InputValues.UsernameDefaultUnreachable | ai-testcase-generator/backend/services/input_value_generator.py:9-53 | the "username" entry is never chosen, since "name" comes first and is contained in it |
| InputValues.TruncMidpointInRange | ai-testcase-generator/backend/services/input_value_generator.py:142-143 | the truncated midpoint of whole bounds stays inside them |
| InputValues.BvaValues | ai-testcase-generator/backend/services/input_value_generator.py:108-179 | minimum, minimum+increment if it fits, midpoint, maximum-increment if it fits, maximum, all VALID; then the two INVALID values just outside the range |
| InputValues.BvaValidInRange | ai-testcase-generator/backend/services/input_value_generator.py:108-179 | every VALID boundary value lies in a non-empty range with whole ends for integers |
| InputValues.BvaInvalidCount | ai-testcase-generator/backend/services/input_value_generator.py:160-177 | exactly two boundary values are INVALID |
| InputValues.EpValues | ai-testcase-generator/backend/services/input_value_generator.py:182-231 | one VALID partition per allowed value then "INVALID_VALUE"; without allowed values the midpoint, then 10 below and 10 above the range |
| InputValues.EpLabelsAgree | ai-testcase-generator/backend/services/input_value_generator.py:182-231 | VALID partitions are allowed values or inside the range, the INVALID ones are the sentinel or outside |
| InputValues.GenerateEpValues | ai-testcase-generator/backend/services/input_value_generator.py:182-231 | the loop yields those partitions |
| InputValues.NegativeValues | ai-testcase-generator/backend/services/input_value_generator.py:234-269 | None first, then "NOT_A_NUMBER" for numeric types, or 12345 and "" for string types, all INVALID |
| InputValues.BoolProduct | ai-testcase-generator/backend/services/input_value_generator.py:311 | 2^k rows of k truth values |
| InputValues.BoolProductComplete | ai-testcase-generator/backend/services/input_value_generator.py:311 | every assignment of k truth values occurs |
| InputValues.BoolProductDistinct | ai-testcase-generator/backend/services/input_value_generator.py:311 | no assignment occurs twice |
| InputValues.BoolProductAllTrueFirst | ai-testcase-generator/backend/services/input_value_generator.py:311 | the all-True assignment comes first |
| InputValues.Relevant | ai-testcase-generator/backend/services/input_value_generator.py:284 | exactly the inputs named by a condition variable, in input order |
| InputValues.AllTrue | ai-testcase-generator/backend/services/input_value_generator.py:291 | every relevant name mapped to True |
| InputValues.Assign | ai-testcase-generator/backend/services/input_value_generator.py:312 | one key per relevant name |
| InputValues.DictNamesSpec | ai-testcase-generator/backend/services/input_value_generator.py:312-315 | the keys of the combination dict, in insertion order, are the relevant names, each once |
| InputValues.DescribeItems | ai-testcase-generator/backend/services/input_value_generator.py:315 | the description's i-th item is the dict's i-th key with the value the assignment gives it, and the keys are exactly the assignment's |
| InputValues.DictNamesDistinct | ai-testcase-generator/backend/services/input_value_generator.py:312-315 | with distinct relevant names the dict's keys are the names in input order |
| InputValues.AssignDistinct | ai-testcase-generator/backend/services/input_value_generator.py:312 | with distinct relevant names each name holds its own truth value |
| InputValues.DescribeRepeatedName | ai-testcase-generator/backend/services/input_value_generator.py:312-315 | two relevant inputs named "x" with (True, False) give `{"x": False}` and the description "x=False" |
| InputValues.McdcCombinations | ai-testcase-generator/backend/services/input_value_generator.py:272-318 | more than three relevant inputs give an all-true and a one-false row per input; otherwise the full product, one row per assignment, described by the dict's keys in insertion order with their final values |
| InputValues.OneFalseDiffersOnce | ai-testcase-generator/backend/services/input_value_generator.py:289-303 | each one-false row differs from the all-true row at its own variable only |
| InputValues.GenerateMcdcCombinations | ai-testcase-generator/backend/services/input_value_generator.py:272-318 | the loops yield those combinations |
| InputValues.RelevantInputs | ai-testcase-generator/backend/services/input_value_generator.py:284 | the filter loop yields the relevant inputs |
| Endpoint.ErrorResponse | ai-testcase-generator/backend/main.py:131-134 | a ValueError becomes status 400 with its message; any other error becomes 500 with "Internal server error: " and the message |
| Endpoint.GenerateTestCases | ai-testcase-generator/backend/main.py:41-134 | a failed interpretation becomes the HTTP error; a BLOCKED one returns the fixed empty response; an OK one returns the builder's cases numbered from 1, the matrix over the same rules and cases, and a report whose counts partition the cases |
| Endpoint.BlockedReportCountsRulesOnly | ai-testcase-generator/backend/main.py:71-88 | the BLOCKED report counts every rule yet covers none, and its matrix lists no rule although the interpretation has some |
| Builder.NominalInRange | ai-testcase-generator/backend/services/test_case_builder.py:223-238 | the nominal value of an input without allowed values lies in its (possibly inferred) range whenever a given range is ordered and, for integer inputs, has whole ends |
| Builder.TestInputsLookup | ai-testcase-generator/backend/services/test_case_builder.py:84-89 | the varied input keeps its value and the keys are exactly the varied name and the other inputs' names |
| Builder.OtherInputNominal | ai-testcase-generator/backend/services/test_case_builder.py:87-89 | every other input gets the nominal value of the last input of that name |
| Builder.BuildTestInputs | ai-testcase-generator/backend/services/test_case_builder.py:84-89 | the loop builds those inputs |
| Builder.StandardRejectsInvalid | ai-testcase-generator/backend/services/test_case_builder.py:95-101 | with the oracle of `Oracle.ComputeExpectedOutput`, an invalid input always expects REJECTED |
| Builder.ValueCaseInputs | ai-testcase-generator/backend/services/test_case_builder.py:84-202 | a case holds the generated value and one entry per input name |
| Builder.ValueCaseVerdict | ai-testcase-generator/backend/services/test_case_builder.py:92-214 | boundary and partition cases take the candidate's validity, negative cases are always INVALID and HIGH, and INVALID cases expect rejection |
| Builder.ChainWellFormed | ai-testcase-generator/backend/services/test_case_builder.py:37-57 | well-formed blocks extended one after another stay well-formed |
| Builder.KindCasesWellFormed | ai-testcase-generator/backend/services/test_case_builder.py:61-221 | the cases of one technique are consecutively numbered, trace to the rule and expect rejection when INVALID |
| Builder.AppendValueCases | ai-testcase-generator/backend/services/test_case_builder.py:80-118 | the inner loop yields the specified cases of one input and advances the counter by their number |
| Builder.GenerateValueTests | ai-testcase-generator/backend/services/test_case_builder.py:61-221 | the outer loop, shared by `_generate_bva_tests`, `_generate_ep_tests` and `_generate_negative_tests` (BVA skips non-numeric inputs), yields the specified cases and advances the counter |
| Builder.TechniqueBlockWellFormed | ai-testcase-generator/backend/services/test_case_builder.py:38-57 | whatever the technique, its block is consecutively numbered, traces to the rule and rejects when INVALID |
| Builder.RuleBlockWellFormed | ai-testcase-generator/backend/services/test_case_builder.py:35-57 | the same for all of one rule's techniques |
| Builder.AllCasesWellFormed | ai-testcase-generator/backend/services/test_case_builder.py:31-59 | the whole suite is numbered from the start, every case traces to the requirement and to one of the rules, INVALID cases expect rejection |
| Builder.GenerateTechniqueTests | ai-testcase-generator/backend/services/test_case_builder.py:38-57 | the dispatch on the technique yields its block and advances the counter |
| Builder.BuildRuleCases | ai-testcase-generator/backend/services/test_case_builder.py:35-57 | the loop over one rule's techniques (`strategies.get(rule_id, [])`) yields its block |
| Builder.BuildTestCases | ai-testcase-generator/backend/services/test_case_builder.py:19-59 | one counter from 1 for the whole suite: ids numbered from 1 and pairwise distinct, every case traces to one of the rules, INVALID cases expect rejection |
| Oracle.FirstNumber | ai-testcase-generator/backend/services/test_oracle.py:180 | the first number of `\d+(?:\.\d+)?` in the text: none exactly when the text has no digit, never negative |
| Oracle.NumberAfterWords | ai-testcase-generator/backend/services/test_oracle.py:180-181 | a whole number after digit-free words is read back as the threshold |
| Oracle.AppendedDigits | ai-testcase-generator/backend/services/test_oracle.py:180-181 | after digit-free words the first match is the appended digit run |
| Oracle.FirstSuccess | ai-testcase-generator/backend/services/test_oracle.py:193-195 | the first possible value containing accept, ok, valid, pass or success, or none when no value does |
| Oracle.PossibleValueHit | ai-testcase-generator/backend/services/test_oracle.py:175-190 | a value is picked only when the rule text mentions it, has a number, and the test value crosses it in the text's direction |
| Oracle.ThresholdHit | ai-testcase-generator/backend/services/test_oracle.py:170-190 | a threshold hit is a mentioned possible value of a text with a number and a direction |
| Oracle.DiscreteOutput | ai-testcase-generator/backend/services/test_oracle.py:156-197 | none exactly without possible values; otherwise always one of them |
| Oracle.DiscreteWithoutNumber | ai-testcase-generator/backend/services/test_oracle.py:169-197 | without a number in the rule text the first success-like value wins, or the first value when none is |
| Oracle.InvalidLooksLikeSuccess | ai-testcase-generator/backend/services/test_oracle.py:194 | "INVALID" counts as success-like because it contains "valid" |
| Oracle.ComparisonHit | ai-testcase-generator/backend/services/test_oracle.py:211-233 | a comparison decides only when the rule text has a number |
| Oracle.BooleanOutput | ai-testcase-generator/backend/services/test_oracle.py:200-240 | without a deciding comparison: False for alarm-like names, True otherwise |
| Oracle.NumericValues | ai-testcase-generator/backend/services/test_oracle.py:254 | the numeric test values; empty exactly when no value is numeric |
| Oracle.ArithmeticOutput | ai-testcase-generator/backend/services/test_oracle.py:243-280 | no numeric test values give no arithmetic value |
| Oracle.SumBounds | ai-testcase-generator/backend/services/test_oracle.py:276-278 | the sum of values in [lo, hi] lies between n*lo and n*hi, so an average lies in the range |
| Oracle.CommonSenseStep | ai-testcase-generator/backend/services/test_oracle.py:78-141 | one pass of the output loop sets this output's name and leaves every other key unchanged |
| Oracle.CommonSenseFoldKeys | ai-testcase-generator/backend/services/test_oracle.py:78-141 | the keys are exactly the output names |
| Oracle.CommonSenseKeys | ai-testcase-generator/backend/services/test_oracle.py:76-147 | without outputs the result is {"status": "ACCEPTED"}; otherwise the keys are exactly the output names |
| Oracle.CommonSenseLastWins | ai-testcase-generator/backend/services/test_oracle.py:78-141 | the last output of a name decides its value, unless it is a status output without success-like values following one of that name |
| Oracle.AlarmMeansViolation | ai-testcase-generator/backend/services/test_oracle.py:107-125 | an alarm-like boolean output is true exactly when some input is out of range; any other boolean output is the negation |
| Oracle.PlainStatusKeepsEarlier | ai-testcase-generator/backend/services/test_oracle.py:81-91 | a status output whose values hold nothing success-like keeps the value an earlier output of the same name set |
| Oracle.CheckInput | ai-testcase-generator/backend/services/test_oracle.py:111-119 | the range check of one numeric input value |
| Oracle.FindViolation | ai-testcase-generator/backend/services/test_oracle.py:110-119 | the loop finds a violation exactly when some input violates its range |
| Oracle.InferCommonSenseOutput | ai-testcase-generator/backend/services/test_oracle.py:65-147 | the loop over the outputs builds the common-sense result |
| Oracle.ApplyOutput | ai-testcase-generator/backend/services/test_oracle.py:79-141 | the loop body for one output |
| Oracle.DiscreteStep | ai-testcase-generator/backend/services/test_oracle.py:33-39 | no discrete answer exactly when no output has possible values |
| Oracle.BooleanStep | ai-testcase-generator/backend/services/test_oracle.py:42-48 | no boolean answer exactly when no output is boolean |
| Oracle.ArithmeticStep | ai-testcase-generator/backend/services/test_oracle.py:51-57 | no arithmetic answer without numeric test values |
| Oracle.ComputeExpectedOutput | ai-testcase-generator/backend/services/test_oracle.py:12-63 | invalid input gives {"status": "REJECTED"}; the result is never empty |
| Oracle.CommonSenseNonEmpty | ai-testcase-generator/backend/services/test_oracle.py:143-147 | the common-sense result is never empty |
| Oracle.DiscreteDecides | ai-testcase-generator/backend/services/test_oracle.py:33-39 | the first output with possible values decides, with one of its own values |
| Oracle.ExpectedOutputDiscrete | ai-testcase-generator/backend/services/test_oracle.py:33-39 | for valid input that output is the only key, holding one of its values |
| Oracle.BooleanDecides | ai-testcase-generator/backend/services/test_oracle.py:42-48 | the first boolean output decides the boolean step |
| Oracle.ExpectedOutputBoolean | ai-testcase-generator/backend/services/test_oracle.py:42-48 | without possible values anywhere the first boolean output is the only key, holding a boolean |
| Oracle.FoldWithoutBooleans | ai-testcase-generator/backend/services/test_oracle.py:107-125 | when no output has possible values or a boolean type no value of the fold is boolean |
| Oracle.CommonSenseReachedWithoutBooleans | ai-testcase-generator/backend/services/test_oracle.py:59-63 | when all three steps give nothing the common-sense result holds no boolean, so its range-violation branch never contributes |
| InputDefinition.Edited | ai-testcase-generator/frontend/src/components/InputDefinition.jsx:68 | editing a field sets that field and leaves the others alone |
| InputDefinition.Bound | ai-testcase-generator/frontend/src/components/InputDefinition.jsx:22-23 | an empty bound is null, any other is parsed |
| InputDefinition.NewInputFields | ai-testcase-generator/frontend/src/components/InputDefinition.jsx:20-27 | the added input keeps the typed name, type, unit and description, parses the bounds, and its allowed values are null for an empty text and clean items otherwise |
| InputDefinition.HandleNext | ai-testcase-generator/frontend/src/components/InputDefinition.jsx:45-51 | continue exactly when there is at least one input, otherwise alert |
| InputDefinition.InputForm.Edit | ai-testcase-generator/frontend/src/components/InputDefinition.jsx:68 | the draft becomes the edited draft |
| InputDefinition.InputForm.AddInput | ai-testcase-generator/frontend/src/components/InputDefinition.jsx:14-39 | without name or type: alert, nothing changes; otherwise exactly one input is appended and the draft is reset |
| OutputDefinition.Edited | ai-testcase-generator/frontend/src/components/OutputDefinition.jsx:62 | editing a field sets that field and leaves the others alone |
| OutputDefinition.NewOutputFields | ai-testcase-generator/frontend/src/components/OutputDefinition.jsx:18-24 | the added output keeps the typed text; its possible values are null for an empty text and clean items otherwise |
| OutputDefinition.HandleNext | ai-testcase-generator/frontend/src/components/OutputDefinition.jsx:39-45 | generate exactly when there is at least one output, otherwise alert |
| OutputDefinition.OutputForm.Edit | ai-testcase-generator/frontend/src/components/OutputDefinition.jsx:62 | the draft becomes the edited draft |
| OutputDefinition.OutputForm.AddOutput | ai-testcase-generator/frontend/src/components/OutputDefinition.jsx:12-33 | without name or type: alert, nothing changes; otherwise exactly one output is appended and the draft is reset |
| RequirementForm.HandleSubmit | ai-testcase-generator/frontend/src/components/RequirementForm.jsx:4-11 | continue exactly when all three fields are non-empty, otherwise alert |
| RequirementForm.BlankFieldsPass | ai-testcase-generator/frontend/src/components/RequirementForm.jsx:6 | fields of spaces only pass the guard although trimming leaves them empty |
| Selection.Without | ai-testcase-generator/frontend/src/components/TestCaseTable.jsx:6 | every occurrence of the id goes, all other ids stay |
| Selection.Toggle | ai-testcase-generator/frontend/src/components/TestCaseTable.jsx:4-10 | the toggled id is selected afterwards exactly when it was not before; every other id keeps its state |
| Selection.ToggleAll | ai-testcase-generator/frontend/src/components/TestCaseTable.jsx:12-18 | equal counts clear the selection; any other count selects every test case in table order |
| Selection.SelectAllLabel | ai-testcase-generator/frontend/src/components/TestCaseTable.jsx:29 | the button reads "Deselect All" exactly when the counts agree |
| Selection.WithoutAbsent | ai-testcase-generator/frontend/src/components/TestCaseTable.jsx:6 | filtering out an absent id changes nothing |
| Selection.WithoutAppend | ai-testcase-generator/frontend/src/components/TestCaseTable.jsx:6 | the filter distributes over concatenation |
| Selection.WithoutKeepsDistinct | ai-testcase-generator/frontend/src/components/TestCaseTable.jsx:6 | the filter keeps a selection free of duplicates |
| Selection.ToggleTwiceUnselected | ai-testcase-generator/frontend/src/components/TestCaseTable.jsx:4-10 | toggling an unselected id twice gives back the old selection |
| Selection.ToggleTwiceSelected | ai-testcase-generator/frontend/src/components/TestCaseTable.jsx:4-10 | toggling a selected id twice keeps the same ids selected but moves it to the end and drops its duplicates |
| Selection.ToggleKeepsDistinct | ai-testcase-generator/frontend/src/components/TestCaseTable.jsx:4-10 | toggling keeps a selection free of duplicates |
| Selection.TogglesStayListed | ai-testcase-generator/frontend/src/components/TestCaseTable.jsx:4-18 | toggling a listed id, or toggling all, keeps the selection among the listed ids |
| Selection.ToggleAllTwiceClears | ai-testcase-generator/frontend/src/components/TestCaseTable.jsx:12-18 | from a partial selection two "toggle all" clicks clear it rather than restoring it |
| Selection.HeaderCountsOnly | ai-testcase-generator/frontend/src/components/TestCaseTable.jsx:13-41 | a selection holding one id twice ticks the header of a two-row table with an unselected row, and "toggle all" then clears it |
| Selection.CountMatchesAll | ai-testcase-generator/frontend/src/components/TestCaseTable.jsx:13 | for duplicate-free lists, one drawn from the other, equal length means everything is selected |
| Selection.HeaderMeansAllSelected | ai-testcase-generator/frontend/src/components/TestCaseTable.jsx:13-41 | with no duplicates and nothing unlisted selected, the counts agree exactly when every test case is selected |
| Workflow.ErrorText | ai-testcase-generator/frontend/src/pages/GeneratorPage.jsx:63 | the error message, or the fallback text when it is empty; never empty |
| Workflow.UpdateField | ai-testcase-generator/frontend/src/pages/GeneratorPage.jsx:33-35 | sets one form field and leaves the others alone |
| Workflow.InitialState | ai-testcase-generator/frontend/src/pages/GeneratorPage.jsx:11-31 | six steps; the page starts on step 0 with nothing entered, nothing generated, no error, not loading |
| Workflow.NextKeepsInv | ai-testcase-generator/frontend/src/pages/GeneratorPage.jsx:33-165 | every handler the page offers keeps the invariant: step within range, steps past each guard reached only through it, results stored together, selection drawn from the listed test cases |
| Workflow.ToggleKeepsInv | ai-testcase-generator/frontend/src/components/TestCaseTable.jsx:4-10 | a row toggle keeps the selection among the listed ids and duplicate-free |
| Workflow.ToggleAllKeepsInv | ai-testcase-generator/frontend/src/components/TestCaseTable.jsx:12-18 | "toggle all" keeps the invariant |
| Workflow.GenerationKeepsInv | ai-testcase-generator/frontend/src/pages/GeneratorPage.jsx:42-67 | a generation, successful or not, keeps the invariant |
| Workflow.RunKeepsInv | ai-testcase-generator/frontend/src/pages/GeneratorPage.jsx:75-165 | any sequence of offered events keeps the invariant |
| Workflow.Reachable | ai-testcase-generator/frontend/src/pages/GeneratorPage.jsx:69-73 | whatever the user does, the test-case and export steps are reached only with an OK interpretation and after a filled form, some inputs and some outputs |
| Workflow.GateHoldsBlocked | ai-testcase-generator/frontend/src/pages/GeneratorPage.jsx:69-73 | a BLOCKED interpretation leaves the page unchanged |
| Workflow.GateOpensOk | ai-testcase-generator/frontend/src/pages/GeneratorPage.jsx:69-73 | an OK interpretation moves to step 4, clears the error and keeps the data |
| Workflow.NavigationKeepsData | ai-testcase-generator/frontend/src/pages/GeneratorPage.jsx:37-165 | navigation only moves the step and clears the error; every shown back button goes one step back |
| Workflow.SubmitAdvancesIffFilled | ai-testcase-generator/frontend/src/pages/GeneratorPage.jsx:79-83 | the first step is left exactly when all three fields are non-empty |
| Workflow.InputsNextIffNonEmpty | ai-testcase-generator/frontend/src/pages/GeneratorPage.jsx:88-93 | the inputs step is left exactly when there is an input |
| Workflow.GenerationStoresAll | ai-testcase-generator/frontend/src/pages/GeneratorPage.jsx:55-61 | a successful generation stores the four results of one response, selects all its test cases in order, moves to step 3 and keeps what was entered |
| Workflow.GenerationFailureKeeps | ai-testcase-generator/frontend/src/pages/GeneratorPage.jsx:62-66 | a failed generation records a non-empty message and changes neither step nor data |
| Workflow.NoOutputsNoCall | ai-testcase-generator/frontend/src/components/OutputDefinition.jsx:39-45 | without outputs the generation is not started |
| Workflow.LoadingAroundCall | ai-testcase-generator/frontend/src/pages/GeneratorPage.jsx:43-66 | loading is on while the call is pending and off once it settled |
| Workflow.GeneratorPage.constructor | ai-testcase-generator/frontend/src/pages/GeneratorPage.jsx:14-31 | the page state starts as the initial state |
| Workflow.GeneratorPage.UpdateFormData | ai-testcase-generator/frontend/src/pages/GeneratorPage.jsx:33-35 | the state steps by the form-update event |
| Workflow.GeneratorPage.GoToStep | ai-testcase-generator/frontend/src/pages/GeneratorPage.jsx:37-40 | the state steps by the navigation event |
| Workflow.GeneratorPage.SubmitRequirement | ai-testcase-generator/frontend/src/components/RequirementForm.jsx:4-11 | the state steps by the submit event |
| Workflow.GeneratorPage.AddInput | ai-testcase-generator/frontend/src/components/InputDefinition.jsx:14-39 | a complete draft appends its input to the page's list; an incomplete one changes no page state |
| Workflow.GeneratorPage.RemoveInput | ai-testcase-generator/frontend/src/components/InputDefinition.jsx:41-43 | the page's inputs lose the one at that position |
| Workflow.GeneratorPage.InputsNext | ai-testcase-generator/frontend/src/components/InputDefinition.jsx:45-51 | the state steps by the inputs' continue event |
| Workflow.GeneratorPage.AddOutput | ai-testcase-generator/frontend/src/components/OutputDefinition.jsx:12-33 | a complete draft appends its output to the page's list; an incomplete one changes no page state |
| Workflow.GeneratorPage.RemoveOutput | ai-testcase-generator/frontend/src/components/OutputDefinition.jsx:35-37 | the page's outputs lose the one at that position |
| Workflow.GeneratorPage.StartGeneration | ai-testcase-generator/frontend/src/pages/GeneratorPage.jsx:43-53 | loading on, error cleared, and the request carries the form's fields, inputs and outputs |
| Workflow.GeneratorPage.FinishGeneration | ai-testcase-generator/frontend/src/pages/GeneratorPage.jsx:55-66 | the state settles as the outcome says |
| Workflow.GeneratorPage.HandleGenerateInterpretation | ai-testcase-generator/frontend/src/pages/GeneratorPage.jsx:42-67 | the state becomes the outcome of calling the backend with the request built from the old state |
| Workflow.GeneratorPage.OutputsNext | ai-testcase-generator/frontend/src/components/OutputDefinition.jsx:39-45 | the state steps by the outputs' continue event |
| Workflow.GeneratorPage.HandleGenerateTestCases | ai-testcase-generator/frontend/src/pages/GeneratorPage.jsx:69-73 | the state steps by the gate event |
| Workflow.GeneratorPage.ToggleTestCase | ai-testcase-generator/frontend/src/components/TestCaseTable.jsx:4-10 | the state steps by the row toggle |
| Workflow.GeneratorPage.ToggleAll | ai-testcase-generator/frontend/src/components/TestCaseTable.jsx:12-18 | the state steps by "toggle all" |
| Workflow.GeneratorPage.DismissError | ai-testcase-generator/frontend/src/pages/GeneratorPage.jsx:187 | the error banner's close clears the error |
| Workflow.GeneratorPage.NewGeneration | ai-testcase-generator/frontend/src/pages/GeneratorPage.jsx:148-157 | a confirmed "New Generation" returns to the initial state |
| ExcelExport.FileNameOr | ai-testcase-generator/frontend/src/utils/excelExporter.js:64 | a given non-empty file name wins; an absent or empty one falls back to `test_cases_<id>_<date>.xlsx` |
| ExcelExport.Row | ai-testcase-generator/frontend/src/utils/excelExporter.js:27-38 | ten fields under the ten headers, in header order |
| ExcelExport.RowReadsBack | ai-testcase-generator/frontend/src/utils/excelExporter.js:27-38 | the headers are distinct and each column reads back the test-case field it is named after, inputs and outputs as JSON text |
| ExcelExport.SheetName | ai-testcase-generator/frontend/src/utils/excelExporter.js:59 | at most 31 characters, a prefix of the id, the id itself when short enough |
| ExcelExport.SheetNamesCollide | ai-testcase-generator/frontend/src/utils/excelExporter.js:59 | two ids agreeing on their first 31 characters give the same sheet name |
| ExcelExport.Requirements | ai-testcase-generator/frontend/src/utils/excelExporter.js:11 | the requirement of each test case, in list order |
| ExcelExport.GroupOfMembers | ai-testcase-generator/frontend/src/utils/excelExporter.js:10-17 | a group holds exactly the test cases of its requirement |
| ExcelExport.GroupOfAppend | ai-testcase-generator/frontend/src/utils/excelExporter.js:15 | `push` keeps list order within a group |
| ExcelExport.GroupedTotal | ai-testcase-generator/frontend/src/utils/excelExporter.js:10-17 | the groups together hold as many test cases as the list |
| ExcelExport.EveryCaseInOneGroup | ai-testcase-generator/frontend/src/utils/excelExporter.js:10-17 | one group per distinct requirement, none empty, each holding only its requirement's cases, every case in its own requirement's group, sizes adding up to the list |
| ExcelExport.GroupedSnoc | ai-testcase-generator/frontend/src/utils/excelExporter.js:12-15 | one more test case grows its requirement's group, or appends a group of it alone for a new requirement |
| ExcelExport.GroupAtFinds | ai-testcase-generator/frontend/src/utils/excelExporter.js:24 | with distinct keys `groupedByReq[reqId]` finds that key's group |
| ExcelExport.GroupByRequirement | ai-testcase-generator/frontend/src/utils/excelExporter.js:10-17 | the reduce builds the grouping |
| ExcelExport.InsertIndexSpec | ai-testcase-generator/frontend/src/utils/excelExporter.js:23 | placing an array-index key keeps indices first and ascending, adds the key and nothing else, and repeats nothing |
| ExcelExport.KeyOrderPermutes | ai-testcase-generator/frontend/src/utils/excelExporter.js:23 | `Object.keys` lists the same keys, each once, array indices first in ascending order |
| ExcelExport.KeyOrderPlain | ai-testcase-generator/frontend/src/utils/excelExporter.js:23 | without array-index keys the order is the insertion order |
| ExcelExport.KeyOrderExample | ai-testcase-generator/frontend/src/utils/excelExporter.js:23 | "2" and "10" come before "REQ-1" although inserted after it |
| ExcelExport.SheetsFor | ai-testcase-generator/frontend/src/utils/excelExporter.js:23-61 | one sheet per key, named by its first 31 characters, holding its group's records |
| ExcelExport.TestCaseExport | ai-testcase-generator/frontend/src/utils/excelExporter.js:3-68 | alert "No test cases to export" exactly for a missing or empty list; otherwise a workbook is written and nothing throws |
| ExcelExport.SheetsAreGroups | ai-testcase-generator/frontend/src/utils/excelExporter.js:10-61 | as many sheets as groups, every sheet a group's sheet and every group's sheet present; in order of first appearance when no id is integer-like |
| ExcelExport.ReorderedSheets | ai-testcase-generator/frontend/src/utils/excelExporter.js:23-61 | sheets in any order of the group keys are the groups' sheets |
| ExcelExport.ExportTestCasesToExcel | ai-testcase-generator/frontend/src/utils/excelExporter.js:3-68 | the alert check, the grouping and the loop appending one sheet per key produce the specified export |
| ExcelExport.SelectedExport | ai-testcase-generator/frontend/src/utils/excelExporter.js:70-78 | the corrected export of a selection (see Findings): an empty list alerts "Please select test cases to export"; any other is written under `selected_test_cases_<id>_<date>.xlsx` |
| ExcelExport.SelectedExportAsWritten | ai-testcase-generator/frontend/src/utils/excelExporter.js:70-78 | as written: the same alert for an empty list, a throw exactly when a case names an inherited requirement id, and otherwise the corrected export |
| ExcelExport.TestCaseExportAsWritten | ai-testcase-generator/frontend/src/utils/excelExporter.js:10-17 | throws exactly when some requirement id names a member every object inherits; otherwise as intended |
| ExcelExport.InheritedNameBreaksExport | ai-testcase-generator/frontend/src/utils/excelExporter.js:12-15 | a test case of requirement "constructor" makes the code throw, where the intended export writes one sheet "constructor" |
| ExcelExport.SummaryRows | ai-testcase-generator/frontend/src/utils/excelExporter.js:84-94 | the header then the eight metrics in order; the percentage carries "%", techniques are joined by ", " |
| ExcelExport.EntryRows | ai-testcase-generator/frontend/src/utils/excelExporter.js:102-104 | one row per matrix entry: the rule id and its test-case ids joined by ", " |
| ExcelExport.TraceRows | ai-testcase-generator/frontend/src/utils/excelExporter.js:101-104 | the header, then one row per entry |
| ExcelExport.TraceRowsListEntries | ai-testcase-generator/frontend/src/utils/excelExporter.js:101-104 | with distinct keys the rows after the header are exactly the entries' rows, each rule once |
| ExcelExport.ReorderedRows | ai-testcase-generator/frontend/src/utils/excelExporter.js:102 | rows in any duplicate-free order of the keys are the entries' rows |
| ExcelExport.CoverageExport | ai-testcase-generator/frontend/src/utils/excelExporter.js:80-112 | always written: "Coverage Summary" then "Traceability" |
| ExcelExport.ExportCoverageReport | ai-testcase-generator/frontend/src/utils/excelExporter.js:80-112 | the push loop over the entries produces the specified export |
| ExportPanel.SelectedCases | ai-testcase-generator/frontend/src/components/ExportPanel.jsx:20 | a test case is exported exactly when it is listed and its id is selected |
| ExportPanel.SelectedKeepsOrder | ai-testcase-generator/frontend/src/components/ExportPanel.jsx:20 | the selected cases keep the table's order |
| ExportPanel.SelectedAll | ai-testcase-generator/frontend/src/components/ExportPanel.jsx:20 | selecting every id exports the whole table |
| ExportPanel.SelectedIdsDistinct | ai-testcase-generator/frontend/src/components/ExportPanel.jsx:20 | a table with distinct ids exports each id at most once |
| ExportPanel.SelectedCount | ai-testcase-generator/frontend/src/components/ExportPanel.jsx:20-108 | a duplicate-free selection of listed ids exports exactly as many cases as the button's count |
| ExportPanel.SelectedNonEmpty | ai-testcase-generator/frontend/src/components/ExportPanel.jsx:19-22 | a non-empty selection of listed ids selects some test case |
| ExportPanel.HandleExportAll | ai-testcase-generator/frontend/src/components/ExportPanel.jsx:15-17 | through the exporter as written: alert exactly without test cases; a thrown TypeError exactly when some case's requirement id is an inherited `Object.prototype` name; otherwise the grouped workbook under the default name |
| ExportPanel.HandleExportSelected | ai-testcase-generator/frontend/src/components/ExportPanel.jsx:19-22 | through the exporter as written: alert exactly when no listed case is selected; a thrown TypeError exactly when a selected case's requirement id is an inherited name; otherwise the selected cases' workbook under the "selected" name |
| ExportPanel.HandleExportCoverage | ai-testcase-generator/frontend/src/components/ExportPanel.jsx:24-26 | the summary and traceability sheets under the coverage file name |
| ExportPanel.EnabledButtonsWrite | ai-testcase-generator/frontend/src/components/ExportPanel.jsx:96-109 | when the selection holds listed ids, an enabled button never ends in an alert, and it writes a workbook whenever no exported case names an inherited requirement id |
| ExportPanel.RawExportReadsBack | ai-testcase-generator/frontend/src/components/ExportPanel.jsx:142-146 | the JSON object has exactly the keys test_cases, coverage_report and traceability_matrix, each holding its prop unchanged |

## Left out

- The Gemini client (`backend/ai/gemini_client.py`), with its retries, sleeps and markdown-fence stripping, is not part of this model. The AI call is a parameter that returns a parsed JSON object or an error.
- The axios wrapper `frontend/src/services/api.js` is not part of this model. The backend call is a parameter of the page's generation, and its outcome is a success or an error message.
- Pydantic's validation messages are not modelled. A record that fails conversion raises `ValueError` with a message passed in as a parameter.
- Python's `str()` of values in scenario texts and `json.dumps` in the export rows are parameters. So are JavaScript's number formatting and `parseFloat`.
- `round(..., 2)` of the coverage percentage is not modelled. The report carries the exact quotient, because floating-point rounding has no counterpart on `real`.
- Binary floating point in general is not modelled. The 0.1 BVA increment of float inputs and the midpoints are exact `real` arithmetic.
- `int()` of an infinite float raising `OverflowError` cannot arise on `real`. As a result the builder's fallback for an oracle that raises (`backend/services/test_case_builder.py:95-101`) is not modelled: the oracle of this model always returns a result.
- Common.Lower, Common.Trim, Common.IsDigit: case folding, whitespace and digits are ASCII only. Python's `str.lower()` and `\d`, and JavaScript's `toLowerCase()` and `trim()`, also handle non-ASCII letters, digits and spaces. So for names or texts outside ASCII the model can differ from the program in `Mcdc.ConditionVariables`, `StateTests.FindStateVariable`, `InputValues.FirstDomainHit`, `Strategy.TechniquesExactlyWhenChosen`, the technique and input-type tests built on `Lower`, the oracle's word and number tests (`Oracle.FirstNumber`, `Oracle.FirstSuccess`, `Oracle.BooleanOutput`), the comma lists of the forms (`Common.CommaList`) and `RequirementForm.BlankFieldsPass`. Example: an input named "Ä" with condition "ä > 1" is a condition variable in Python but not in the model.
- The regular expressions of the oracle are written out as a digit scan (`Oracle.FirstNumber`) and not as a general regex engine.
- Strategy.Techniques: `list(set(techniques))` has an order that changes with Python's string-hash randomization. The model fixes one order, the order of appending, with NEGATIVE last. `Strategy.Techniques`, `Builder.BuildTestCases`, `Builder.AllCasesWellFormed` and `Endpoint.GenerateTestCases` (through `Endpoint.PipelineResult`) depend on that order: it decides the order of the test cases and so which case gets which `TC_<req>_<n>` id. Consecutive numbering, traceability and the rejection of INVALID cases are proved per technique block (`Builder.TechniqueBlockWellFormed`, `Builder.ChainWellFormed`) and so hold for any order. Which techniques occur, each once, is stated order-free by `Strategy.TechniquesExactlyWhenChosen`.
- The order of `check_for_inventions`'s warnings follows the `boundary_values` object's key order. Duplicate keys in the AI's JSON are not modelled.
- The response's `generated_at` timestamp, FastAPI and CORS setup, and the root and health endpoints are not modelled.
- The SheetJS calls (`book_new`, `json_to_sheet`, `book_append_sheet`, `writeFile`) and the column widths are not modelled. A workbook is the list of sheet names and rows handed to them.
- The `Date`-based file names take today's date as a parameter.
- SheetJS rejects duplicate or over-long sheet names. That rejection is not modelled; `ExcelExport.SheetNamesCollide` only shows that two requirement ids can produce the same 31-character name.
- `alert`, `window.confirm`, the clipboard and `window.location.reload` are not modelled. "New Generation" is modelled as returning to the initial state once the user has confirmed.
- `async`/`await` is modelled as two events: starting a generation sets `loading`, and the settled call finishes it. Concurrent generations are not modelled.
- The HTML `required` attributes of the forms are not modelled. Only the handlers' own guards are.
- The Stepper, the InterpretationResult view, the loading overlay and all styles are presentation, and are not modelled.

## Findings

| source | as written | input that shows it | evidently intended | confidence | as-written member | corrected member |
|---|---|---|---|---|---|---|
| ai-testcase-generator/frontend/src/utils/excelExporter.js:10-17 | grouping looks up `acc[reqId]` on a `{}` accumulator, which also finds members inherited from `Object.prototype`; pushing onto such a member throws before any workbook is written | one test case whose `traceability.requirement` is `"constructor"` | every requirement id gets its own group and sheet | high, not executed | ExcelExport.TestCaseExportAsWritten, ExcelExport.SelectedExportAsWritten, ExcelExport.InheritedNameBreaksExport | ExcelExport.TestCaseExport, ExcelExport.ExportTestCasesToExcel, ExcelExport.SelectedExport |
