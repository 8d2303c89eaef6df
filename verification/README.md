# Kernl decision core

This project models the V1 decision core of Kernl and proves what its documentation promises:
decisions are a pure function of facts and a published bundle, every decision a caller sees is on
an append-only hash-chained ledger, every bundle that decides went through an acknowledged replay,
and every escalation is settled under a ledgered event, which the ruling that settles it need not agree with.

The parts, in the order in which they build on each other:

- `Schema`, `SchemaEdges`, `Overrides`, `BundleIntegrity`, `IntactBundles`: the policy data, the schema's validators and
  which edits they let pass, the three-colour search for override cycles, and what integrity means outright.
- `Precedence`, `Selection`, `EliminationTrace`, `Judgement`, `Tally`, `Evaluator`: the list algorithms of
  the evaluator as methods, proved against a reference that only sees a *set* of ballots
  (one per policy). Everything that is independent of policy order follows from that.
- `Account`, `RulingsAccounted`, `AccountExact`: what every field of a ruling and its trace must say, told without the
  evaluator, and the proof that the evaluator's ruling is the one result of which it is true.
- `EdgeEvaluator`, `Conformance`: the Rust port, proved against the same reference, and the exact
  condition on the supplied numbers under which it agrees with Python.
- `Likeness`, `Canonical`, `Addressing`, `BundleDiffs`, `DiffLaws`, `DiffBlindSpots`, `Replay`, `ReplayLaws`: canonical
  form and content address, structural diff and what it cannot see, and replay, with the theorems that equal addresses
  and cosmetic diffs cannot change a decision, and with exactly what an address keeps, a diff shows and a run reports.
- `Solo`, `Doubles`: the smallest bundle around one condition, and the range of binary64 on integers.
- `DecisionLaws`, `Resolutions`, `MissingFactRounds`, `PolicyChanges`: what a decision says about its policies, how
  it behaves when facts are added, exactly when it is final, and what happens when policies change.
- `Lifecycle`: draft, published and retired records behind the replay gate.
- `LedgerEvents`, `ChainLaws`, `LedgerStores`, `LedgerService`, `LedgerProtocol`, `LedgerInterleaving`: sealing and
  chains and what a head fixes, the store, the service with its retry loop, the store under any interleaving of concurrent calls, and
  the proof that the loop and the concurrent protocol are the same.
- `Escalations`, `DecisionApi`, `Governance`, `Adjudications`, `RunLaws`: the escalation desk, the decision endpoint, and the joint state
  machine of everything above, whose runs carry the end-to-end theorems.
- `Finality`, `Faithfulness`: what a resolved case may still come to say, and when it says what the ledger says.
- `SampleRuns`, `ReservedKeyRun`, `RivalRulings`: whole runs, built step by step, that show where the desk, the
  ledger and the clients part.
- `Sources`, `Assembly`, `Onboarding`: grounded citations, vocabulary inference and bundle assembly.

Conventions. A method follows the loops and updates of the code it models; its contract names a
function or relation, and lemmas about that function state what the system promises. `Lib` stands
for library behaviour (`strip().lower()`, printing of scalars, rounding an integer to a double, which is
partial) and `digest` for the content hash, all arbitrary functions; a theorem that needs more, such as a
collision-free digest or monotone rounding, says so. Fresh ids, clocks and the appends of other writers are parameters.

Where the code and its comments differ, the model follows the code. Findings on the way:

- `evaluate` promises a decision on every path but the two request errors, but `float(...)` raises
  OverflowError on an integer beyond the doubles (`backend/runtime/evaluator.py:195`), which nobody handles:
  the endpoint fails and a whole replay aborts. `Evaluator.OverflowsExactlyOnHugeNumbers` is the exact condition,
  `Doubles.TwoTo1024Overflows` an input.
- The port casts integral floats with saturation (`edge-evaluator/src/eval.rs:144`), so it agrees with Python
  exactly on non-integral floats and on numbers whose double lies in [-2^63, 2^63]
  (`Conformance.ConformanceCondition`).
- The schema types condition values only for numbers (`backend/bundle/schema.py:76-80`). An untyped
  string value can make two bundles with one content hash decide differently
  (`Canonical.UntypedStringBreaksAddressing`), exactly when it is an integral number whose two spellings print
  differently (`Canonical.RespellingIsSafeExactly`); an untyped boolean value is harmless there, and makes the port
  panic (`Conformance.PanicsExactly`, `Conformance.UntypedFlagPanics`).
- The dominance rule looks only at priority, so it does not make a decision stable by itself
  (`Resolutions.DominanceDoesNotMakeStable`); `Resolutions.DecisionIsFinalExactly` says exactly when a decision is.
- Client idempotency keys and adjudication keys share one namespace
  (`backend/escalation/service.py:196`): a decision recorded under a case's adjudication key is
  what resolving the case then names (`Governance.ResolutionRulesUnlessKeyTaken`). `ReservedKeyRun` builds such a run.
- Two rulings on one open case may both pass the open check, and the second overwrites what the first recorded
  (`backend/escalation/service.py:183-215`, `RivalRulings.RivalsOverwrite`); `Finality.WordsAreFinalExactly` says when
  that cannot happen.
- A settled case may say something else than the ledger event it names: the second of two rulings gets the first one's
  event back, also when the first only failed in its promotion (`backend/escalation/service.py:203-211`,
  `RivalRulings.RetriesContradict`). `Escalations.LedgerSaysExactly` and `Faithfulness.FinishIsFaithfulExactly` are
  the exact conditions, `Faithfulness.OneVoiceIsFaithful` a sufficient one over whole runs.
- The diff compares with Python's `==` and looks at policies only, so it can be empty between bundles that decide
  differently (`DiffBlindSpots`).
- A draft stays accepted when its last citation is removed (`backend/onboarding/service.py:106-123`,
  `Onboarding.LastCitationUnpublishes`, `Onboarding.AcceptedWithoutCitations`); assembly then rejects it.

## Model

| member | source | states |
|---|---|---|
| Overrides.CycleCheck.Visit | backend/bundle/schema.py:297-304 | the recursive coloured visit: returning normally, everything reachable below the node is finished and ranked by finishing order, the gray nodes are again exactly the stack, and the number of white nodes has not grown; raising, the path it hands back is a walk in the override graph that ends by returning to one of its own nodes |
| Overrides.CycleCheck.Run | backend/bundle/schema.py:292-308 | the loop over all nodes ends without a path only with a topological rank of every node and no cycle, and with a path only if that path contains a cycle |
| Overrides.RankedHasNoCycle | backend/bundle/schema.py:292-308 | a graph with a strictly falling rank has no cyclic walk, so acceptance and rejection exclude each other |
| BundleIntegrity.AssertAcyclicOverrides | backend/bundle/schema.py:292-308 | raises exactly when the override graph of the policies has a cycle, and the reported path shows one; acceptance is exactly the existence of a rank over all policies |
| BundleIntegrity.Validate | backend/bundle/schema.py:242-280 | the checks in their order (workflow names, policy ids, placement, workflows of override targets, cycles) accept exactly the bundles with unique names and ids, every policy in a known workflow with declared and correctly typed condition fields, overrides within one workflow, and an acyclic override relation; an error always reports a real fault: the named policy's missing workflow, unknown or foreign override target, undeclared or mistyped field, or a cycle |
| IntactBundles.IntegrityExactly | backend/bundle/schema.py:242-280 | that acceptance, outright: no two workflows share a name and no two policies an id; some workflow has each policy's name and declares each of its condition fields, in the last fact of that name, at the condition's type; each override target is a policy of the same workflow; and there is no ring of policies each overriding the next |
| IntactBundles.AcyclicExactly | backend/bundle/schema.py:292-308 | a topological rank of the overrides exists if and only if there is no such ring, for any list of policies with distinct ids |
| BundleIntegrity.CheckPolicy | backend/bundle/schema.py:251-271 | one policy passes exactly when its workflow exists, its override targets are known ids and its condition fields are declared at the condition's type; otherwise the error is its first fault in that order: the workflow, the first unknown target, the first undeclared or mistyped condition |
| BundleIntegrity.CheckSameWorkflow | backend/bundle/schema.py:272-278 | one policy passes exactly when every override target is a policy of the same workflow |
| BundleIntegrity.SetSizeDetectsRepeats | backend/bundle/schema.py:244-249 | comparing the number of names with the size of their set detects exactly the repeated names |
| SchemaEdges.PolicyEdits | backend/bundle/schema.py:135-169 | of an accepted policy: the priority may become exactly 0 to 1000, the sign-off may go exactly if there are conditions, the conditions may go exactly with it, evidence may not go, the overrides may become any ids but its own, and approval may be required exactly with a nonempty approver role |
| SchemaEdges.PartEdits | backend/bundle/schema.py:46-101 | its evidence may become one citation exactly if the span is ordered and not negative and the excerpt has a character that is no Unicode whitespace; its conditions may become one condition exactly if the field is a name and operator and value have the shape the type admits |
| SchemaEdges.NameEdits | backend/bundle/schema.py:112-156 | its action, workflow and id may become exactly a lower-case letter followed by letters, digits and underscores, with one newline allowed at the end, and with dots for underscores in the latter two; the id none of its override targets |
| SchemaEdges.WorkflowExactly | backend/bundle/schema.py:176-225 | a workflow spec is accepted exactly when every fact has a name and, if any, a default of its type, and no two facts share a name |
| Selection.SelectWinner | backend/runtime/evaluator.py:274-326 | for any list of matched policies with distinct ids, in any order: nobody, an index error, the tie or the winner according to the finalists of the set (not overridden, then most specific, then highest priority); the applied rules are those whose stage removed somebody, or single_match; the elimination list names every stage's losers in order |
| Selection.CollectOverridden | backend/runtime/evaluator.py:284-289 | the nested loops map exactly the matched targets that some survivor overrides, each to the last survivor in list order that overrides it |
| Selection.LastOverriderIsNamed | backend/runtime/evaluator.py:284-289 | for every overridden target the overrider named is the last policy in list order that overrides it, stated by position in the list |
| Selection.OverrideStage | backend/runtime/evaluator.py:284-296 | survivors are, in list order, exactly the policies no matched policy overrides; the rule is applied exactly when somebody was removed; eliminations come sorted by target |
| Selection.SpecificityStage | backend/runtime/evaluator.py:298-308 | survivors are exactly those with the most conditions; losers are struck in the name of the first one kept |
| Selection.PriorityStage | backend/runtime/evaluator.py:310-320 | survivors are exactly those of the highest priority; losers are struck in the name of the first one kept |
| Selection.KeepTop | backend/runtime/evaluator.py:298-320 | one ranking block keeps, in order, exactly the policies whose key is maximal, and strikes somebody exactly when it changes the list |
| Selection.FinalStage | backend/runtime/evaluator.py:282-326 | on sets, the three list filters compute the finalists, one list entry per finalist |
| EliminationTrace.StrikerDependsOnOrder | backend/runtime/evaluator.py:285-295 | unlike the outcome, the trace depends on the policy order: of two policies overriding a third, the later one in the list is named |
| Precedence.FinalistsAreMaxima | backend/runtime/evaluator.py:17-21 | the finalists are exactly the undefeated contenders that no other undefeated contender beats on (specificity, priority) |
| Precedence.SoleFinalist | backend/runtime/evaluator.py:322-326 | a single finalist is undefeated and strictly beats every other undefeated contender |
| Precedence.UniqueMaximumWins | backend/runtime/evaluator.py:322-326 | conversely, an undefeated contender that strictly beats all the others is the only finalist |
| Precedence.NoFinalists | backend/runtime/evaluator.py:322-326 | nobody is left exactly when nobody matched or the override stage removed everybody |
| Precedence.AcyclicFieldStands | backend/runtime/evaluator.py:284-296 | on acyclic overrides every nonempty set of matched policies keeps a survivor |
| EliminationTrace.SurviveOrStruckOnce | backend/runtime/evaluator.py:284-326 | every matched policy is struck exactly once in the elimination list unless it is a final survivor, which is never struck |
| EliminationTrace.TraceIsForest | backend/runtime/evaluator.py:284-326 | on acyclic overrides, following eliminated_by from any matched policy reaches a final survivor in finitely many steps |
| EliminationTrace.OverriddenLink | backend/runtime/evaluator.py:286-295 | a policy struck by the override rule is struck in the name of a matched policy that overrides it |
| Evaluator.CheckSupplied | backend/runtime/evaluator.py:171-176 | the loop over the supplied facts, in any dictionary order, fails exactly when a declared fact has a value of the wrong type, and otherwise collects exactly the declared ones, normalised, and the undeclared names |
| Evaluator.ValidateFacts | backend/runtime/evaluator.py:165-181 | fails exactly on ill-typed facts; otherwise the effective facts are the declared supplied values plus the defaults of the others, with the ignored and defaulted names sorted and without repeats |
| Evaluator.EvaluatePolicy | backend/runtime/evaluator.py:225-267 | None exactly when some comparison overflows; otherwise failed when some present condition fails, undeterminable when none fails and some field is absent, matched otherwise, with one result per condition in order and the missing fields sorted and without repeats |
| Evaluator.RuleWithoutWinner | backend/runtime/evaluator.py:373-388 | escalates for the missing fields of all unproven policies if there are any, else for no matching policy |
| Evaluator.RuleWithWinner | backend/runtime/evaluator.py:390-421 | the dominance rule: unproven policies of strictly higher priority block the winner and their missing fields and ids are reported; otherwise the winner's effect and authority are the outcome |
| Evaluator.Decide | backend/runtime/evaluator.py:345-421 | whatever the list order, the ruling is the judgement of the set of ballots (one per policy), and there is none exactly when every matched policy is overridden |
| Evaluator.EvaluateFacts | backend/runtime/evaluator.py:329-421 | on every accepted bundle the loops compute the evaluator's specification: an unknown workflow, ill-typed facts, the overflow of a number comparison, or a ruling with its complete trace, never a crash; what that specification says is RulingIsTheAccount and RefusalsAreExact |
| RulingsAccounted.RulingIsAccounted | backend/runtime/evaluator.py:329-421 | on an accepted bundle every ruling says, field by field and in terms of the request, the fact specs and the policies alone, what it should: facts_ignored exactly the supplied names no spec has, defaults_applied exactly the names not supplied whose spec has a default, both ascending, facts_supplied the request, facts_effective the supplied values as read or else the defaults; one entry per policy of the workflow in bundle order with its id, priority, number of conditions, status, one result per condition and its missing fields; the outcome, which the trace repeats, of whoever leads alone, of a tie or of nobody; the applied rules, winner, tie and blockers; and who was struck by which rule in whose name, where the striker is the last overrider or the first survivor in list order |
| AccountExact.RulingIsTheAccount | backend/runtime/evaluator.py:329-421 | and nothing else: where evaluation rules, a result is its result if and only if it is accounted for in this way |
| AccountExact.RefusalsAreExact | backend/runtime/evaluator.py:329-347 | there is no ruling exactly for a workflow name no spec has, for a supplied fact whose value is not of its spec's type, or else for a number condition of the workflow that compares an integer beyond the doubles |
| RulingsAccounted.PoliciesInOrder | backend/bundle/schema.py:288-289 | the policies of a workflow are those of the bundle's list that name it, each position once, in list order |
| Text.LessIsCodePointOrder | backend/runtime/evaluator.py:354-356 | the order of every sorted list: a proper prefix comes first, otherwise the smaller code point at the first difference |
| Evaluator.OverflowsExactlyOnHugeNumbers | backend/runtime/evaluator.py:195-208 | on an accepted bundle and well-typed facts, evaluation raises OverflowError if and only if some number condition of a policy of the workflow, with one value, has a valued field and the fact or the condition's value is an integer that no double can hold; in every other case there is a ruling |
| Doubles.TwoTo1024Overflows | backend/runtime/evaluator.py:195 | a concrete such request: one accepted policy on an amount over 500, asked about the amount 2^1024, with the range of IEEE 754 binary64 |
| Solo.SoloOverflows | backend/runtime/evaluator.py:195-208 | a bundle of one policy with one condition overflows whenever its comparison does |
| Evaluator.AcceptedPoliciesReady | backend/runtime/evaluator.py:192-222 | facts that passed validation have the types an accepted bundle's conditions compare, so the assertion at the end of the comparison is never reached |
| Evaluator.AcceptedNeverStuck | backend/runtime/evaluator.py:326 | on an accepted bundle and any facts, the list that is indexed for the winner is not empty |
| Judgement.JudgeWinner | backend/runtime/evaluator.py:390-421 | the judgement of distinct ballots with a sole finalist depends on that finalist and its blockers only |
| Judgement.JudgeNobody | backend/runtime/evaluator.py:373-388 | with no matched ballot the judgement is one of the two escalations |
| Tally.SelectedJudgement | backend/runtime/evaluator.py:345-421 | each result of the selection over a policy list is the judgement of the set of ballots those policies cast: index error exactly when stuck, nobody, winner and tie otherwise |
| DecisionLaws.DecidesExactlyWhenGoverning | backend/runtime/evaluator.py:10-31 | a policy is the winner of a decision exactly when it governs: it matches, no matched policy overrides it, it strictly beats every other such policy, and no unproven policy has a higher priority |
| DecisionLaws.RulingsAreExplained | backend/runtime/evaluator.py:362-421 | every ruling is explained: a decisive one carries the governing policy's effect and authority; no_matching_policy exactly when every policy failed; conflict exactly when there are several finalists, and then it lists exactly them |
| DecisionLaws.EvaluatesExactly | backend/runtime/evaluator.py:329-421 | the condition under which these laws speak, namely a known workflow, well-typed facts and no huge number compared, is exactly that evaluation rules |
| DecisionLaws.ProvenStaysProven | backend/runtime/evaluator.py:225-267 | values for absent facts never change a matched or a failed policy |
| DecisionLaws.SupplyingExtends | backend/runtime/evaluator.py:165-181 | supplying facts that had neither a value nor a default only extends the effective facts |
| DecisionLaws.DecisionIsStable | backend/runtime/evaluator.py:23-27 | a decision and its outcome survive every extension of its facts when no unproven policy threatens the governing one, where a threat overrides it, or is neither beaten by it on (specificity, priority) nor overridden by a matched policy |
| Resolutions.FinalExactlyWhenUnthreatened | backend/runtime/evaluator.py:23-27 | of a winning ballot without blockers: it wins however the unproven ballots turn out if and only if none of them is such a threat |
| Resolutions.DecisionIsFinalExactly | backend/runtime/evaluator.py:23-27 | on an accepted bundle the winner of a decision stays the winner under every resolution of the unproven policies if and only if none of them threatens it |
| Resolutions.DominanceDoesNotMakeStable | backend/runtime/evaluator.py:390-421 | the dominance rule does not suffice: an unconditional policy of priority 500 decides, and once the absent fact of a conditional policy of priority 100 is supplied, that policy decides instead |
| DecisionLaws.LosingAFactDethrones | backend/runtime/evaluator.py:33-35 | a policy never wins while one of its condition fields has no value |
| MissingFactRounds.AsksForAbsentFacts | backend/runtime/evaluator.py:373-409 | each missing_facts escalation names at least one fact, and only declared facts without a value |
| MissingFactRounds.RoundMakesProgress | backend/runtime/evaluator.py:373-409 | answering such an escalation strictly reduces the number of unvalued facts |
| MissingFactRounds.DialogueIsShort | backend/runtime/evaluator.py:373-409 | in every dialogue that keeps answering what is asked, the evaluator asks at most as often as there were unvalued facts |
| MissingFactRounds.OneRoundSuffices | backend/runtime/evaluator.py:373-382 | when no policy matched, one answered round ends the asking |
| PolicyChanges.RaisingPriorityKeepsWinner | backend/runtime/evaluator.py:310-320 | raising the priority of the deciding policy, all else equal, keeps it deciding |
| PolicyChanges.ChallengerWins | backend/runtime/evaluator.py:284-296 | adding an unconditional policy of the highest allowed priority that overrides every matched policy makes it decide |
| EdgeEvaluator.EdgeCheckSupplied | edge-evaluator/src/eval.rs:264-274 | the port's validation loop fails exactly on an ill-typed declared fact, in any map order, and otherwise holds exactly the declared values, integral floats cast with saturation |
| EdgeEvaluator.EdgeInsertDefaults | edge-evaluator/src/eval.rs:275-281 | the defaults loop adds, in the order of the specs, each declared default whose name is not there yet |
| EdgeEvaluator.DefaultsAreEffective | edge-evaluator/src/eval.rs:264-281 | where fact names are unique, supplied values and defaults together are exactly the effective facts: each declared name once, its supplied value before its default |
| EdgeEvaluator.FirstDefaultWins | edge-evaluator/src/eval.rs:275-281 | where names repeat, supplied values stand, and of a name not supplied the first default in the list is the one that counts |
| EdgeEvaluator.EdgeEvaluatePolicy | edge-evaluator/src/eval.rs:171-198 | panics exactly when a present condition cannot be compared; otherwise status and sorted missing fields as the three-valued reading says |
| EdgeEvaluator.PanicsOnExactly | edge-evaluator/src/eval.rs:78-129 | a comparison panics, on any condition and value, exactly on a number condition whose value or fact is no number with a double, is a list, or whose operator is in or not_in; on a string condition with one value and another operator than eq or neq, or a list and another than in or not_in; and on a boolean condition unless both sides are booleans |
| EdgeEvaluator.EdgeSelectWinner | edge-evaluator/src/eval.rs:202-253 | the retain loops, on any list; on distinct ids the same rules as the Python stages, a tie list only for several finalists, a winner only for a sole finalist, and (None, no tie) both for nobody matched and for everybody overridden |
| EdgeEvaluator.SortAllSorts | edge-evaluator/src/eval.rs:244-247 | the tied ids are sorted: none lost, none added, none before a smaller one, repeats included |
| EdgeEvaluator.EdgeEvaluateRequest | edge-evaluator/src/eval.rs:255-411 | for every request: rejected when decoding it exactly when a fact is no scalar, a number of the bundle or the facts has no double, or a priority exceeds 64 bits; otherwise the port's result on the lists, and its set-level specification where fact names and policy ids are unique, panics included |
| EdgeEvaluator.RejectedExactly | edge-evaluator/src/schema.rs:13-100 | a request is rejected when decoding it exactly for a fact that is no scalar, a number of the facts, conditions or defaults that has no double, or a priority outside -2^63 to 2^63 - 1 |
| EdgeEvaluator.EdgeRunIsJudgement | edge-evaluator/src/eval.rs:255-411 | where names are unique, the list program of the port computes the judgement of a set of ballots |
| Conformance.CompareSame | edge-evaluator/src/eval.rs:78-129 | on a valid, typed condition and a value both sides read alike, the port's comparison does not panic and equals Python's |
| Conformance.SameViewExactly | edge-evaluator/src/eval.rs:255-411 | what agreement of the two evaluators means below: the same outcome, rules, winner, tie and blockers, or errors of the same kind |
| EdgeEvaluator.SaturateExactly | edge-evaluator/src/eval.rs:144 | the cast keeps exactly the integers from -2^63 to 2^63 - 1 and moves every other one to the nearer end |
| Conformance.PortAgrees | edge-evaluator/src/eval.rs:255-411 | on every accepted bundle with typed condition values that the port can decode, and decodable facts whose numbers both sides read alike, the port returns the same error class or the same outcome, winner, applied rules, tie and blockers as the Python evaluator; it never panics and Python never overflows |
| Conformance.InRangeCastsExactly | edge-evaluator/src/eval.rs:142-148 | every integer in the signed 64-bit range, and every float from -2^63 up to but excluding 2^63, is read alike by both sides |
| Conformance.CastsExactlyInRange | edge-evaluator/src/eval.rs:131-148 | a number is read alike by both sides if and only if it is a non-integral float or its double lies in [-2^63, 2^63] |
| Conformance.TwoTo63Agrees | edge-evaluator/src/eval.rs:142-148 | 2^63 itself, one above the greatest signed 64-bit integer, is still read alike |
| Conformance.SaturationDiverges | edge-evaluator/src/eval.rs:142-148 | for every supplied number outside that range there is an accepted, typed, decodable bundle on which the two evaluators disagree |
| Conformance.ConformanceCondition | edge-evaluator/src/eval.rs:131-148 | hence the port agrees with Python on all accepted, typed, decodable bundles for given facts if and only if the facts decode and each supplied number under a name a fact can have is a non-integral float or has its double in [-2^63, 2^63] |
| Conformance.TwoTo64Saturates | edge-evaluator/src/eval.rs:142-148 | 2^64, as an integer or as a float, is read differently |
| Conformance.PanicsExactly | edge-evaluator/src/eval.rs:78-129 | on an accepted bundle a policy makes the port panic exactly when a boolean condition on a present fact carries a value that is not a boolean |
| Conformance.UntypedFlagPanics | edge-evaluator/src/eval.rs:118-127 | a concrete input: an accepted policy compares a flag with the number 1; on the fact true the port panics and Python decides |
| Conformance.StuckFieldsDiverge | edge-evaluator/src/eval.rs:252 | without the cycle check the port and Python agree exactly when not every matched policy is overridden: there Python indexes an empty list and Rust escalates |
| Likeness.CompareAlike | backend/runtime/evaluator.py:192-222 | respelling an integral number as int or float, in the condition or in the fact, does not change a comparison |
| Likeness.ViewsAgreeExactly | backend/runtime/evaluator.py:329-421 | what giving the same verdict means below: the same outcome, applied rules, winner, tie and blockers, or the same failure |
| Likeness.AlikeBundlesAgree | backend/runtime/evaluator.py:329-421 | two accepted bundles whose policies agree in everything the evaluator reads, in any order, give the same verdict or the same request error |
| Canonical.SortedAscends | backend/bundle/canonical.py:61-70 | the policies that enter the hash stand in strictly ascending id order |
| Canonical.HashIgnoresOrderAndCompany | backend/bundle/canonical.py:61-70 | two bundles with the same workflows and the same set of policies have the same content hash, whatever their policy order and company; what else the hash does and does not ignore is SameAddressExactly |
| Addressing.SameAddressExactly | backend/bundle/canonical.py:24-70 | with a collision-free digest two bundles of distinct policy ids share one content hash if and only if their schema versions are equal, their workflows agree one by one in name, description and facts (name, type, description, default), and each policy has a counterpart in the other with the same id, workflow, effect, priority, authority, evidence, overrides, sign-off, rationale and conditions, where defaults and condition values may differ in the spelling of an integral number only; the hash starts with sha256: |
| Canonical.HashDeterminesDecision | backend/bundle/canonical.py:61-70 | with a collision-free digest, two accepted bundles of one content hash give the same outcome, winner, applied rules, tie set and blockers, or the same failure, for every facts and workflow, when no string condition's value has two spellings that print differently |
| Canonical.TypedPrintsOneWay | backend/bundle/canonical.py:29-43 | a bundle whose string conditions all carry strings meets that condition |
| Canonical.RespellingIsSafeExactly | backend/bundle/schema.py:76-80 | for a string condition with value v: every respelling of v with the same canonical form decides alike on all facts if and only if they all print alike |
| Canonical.PrintsOneWayExactly | backend/bundle/canonical.py:29-43 | which fails only for an integral number whose integer and float spelling print differently |
| Canonical.UntypedStringBreaksAddressing | backend/bundle/schema.py:76-80 | a concrete failure: the schema accepts the number 2 and the number 2.0 as value of a string condition, the two bundles share one hash, and they decide differently |
| Solo.SoloDecides | backend/runtime/evaluator.py:329-421 | a bundle of one policy with one condition decides for it exactly when the comparison holds |
| BundleDiffs.DiffPartitionsBoth | backend/bundle/diff.py:53-88 | each policy of the before bundle is counted once as removed, modified or unchanged, each of the after bundle once as added, modified or unchanged |
| BundleDiffs.AddedIn | backend/bundle/diff.py:60-63 | added holds exactly the after policies with a new id |
| BundleDiffs.RemovedIn | backend/bundle/diff.py:64-67 | removed holds exactly the before policies whose id is gone |
| BundleDiffs.ModifiedIn | backend/bundle/diff.py:68-76 | modified holds exactly the policies present on both sides that are not equal, with their changed fields |
| BundleDiffs.DiffRebuilds | backend/bundle/diff.py:53-88 | applying the diff to the before map gives the after map: the same ids, and equal policies under each |
| DiffLaws.DiffIsAccounted | backend/bundle/diff.py:45-88 | the diff shows exactly the policies that are new, gone, or edited in any of the nine fields, evidence, sign-off and rationale included; a modification carries both versions, the after workflow, and in the order of the source exactly the names of the fields that differ; each list stands in bundle order, under the hashes of the two bundles |
| DiffLaws.ChangedExactly | backend/bundle/diff.py:45-50 | the changed fields of two versions of a policy, one by one: a field is named exactly if the versions differ in it as Python's == sees it |
| BundleDiffs.CosmeticDiffKeepsDecisions | backend/bundle/diff.py:45-88 | when a workflow's spec is unchanged and the diff adds and removes nothing there and modifies only evidence, unconditional_ack and rationale, evaluation agrees before and after for all facts in that workflow, provided the kept policies print the values of their string conditions alike |
| BundleDiffs.TypedPairsPrintAlike | backend/bundle/diff.py:45-88 | which they do on such a diff whenever the string conditions before it carry strings |
| DiffBlindSpots.TrueAndOneShowNothing | backend/bundle/diff.py:49-76 | what the diff does not see: a string condition on True and one on 1 are equal to Python, so the diff of two accepted bundles is empty although their hashes differ and they decide differently |
| DiffBlindSpots.DefaultsShowNothing | backend/bundle/diff.py:53-88 | nor does it see workflows: a changed fact default leaves the diff empty and changes the decision on an empty request |
| Replay.Score | backend/replay/engine.py:143-203 | the loop completes exactly when no case overflows, and then yields one result per case and exactly the totals of those results; a case that overflows aborts the whole replay |
| Replay.ScoreCase | backend/replay/engine.py:146-203 | one round fails exactly when the candidate or the reference overflows on the case; otherwise it computes the case's result, and the accumulators gain exactly what the result is flagged with; what the result says is RunIsAccounted |
| ReplayLaws.RunIsAccounted | backend/replay/engine.py:143-218 | for every case the result carries the candidate's outcome if it rules, else an error and nothing more; the reference's outcome if both rule; golden_pass exactly if the candidate's kind, spelled as in the source, is the expected one and so are the action and the escalation reason where one is expected; flipped is None exactly if one of the outcomes is missing, true if the two differ in kind or action and false if they agree in both; the summary counts exactly the results so marked, new escalations among the flips from a decision to an escalation |
| ReplayLaws.NoFlipsExactly | backend/replay/engine.py:178-187 | no flips are reported if and only if on every case both bundles rule on they decide the same kind and action |
| ReplayLaws.CleanExactly | backend/replay/engine.py:160-176 | no failures and no errors are reported if and only if the candidate rules on every case as expected |
| Replay.ResultsAlign | backend/replay/engine.py:143-203 | result i carries the id and workflow of case i, for every i |
| Replay.CountersCount | backend/replay/engine.py:144-218 | each counter equals the number of results carrying its flag |
| Replay.CountersAddUp | backend/replay/engine.py:144-218 | total = golden_passed + golden_failed + errors = number of cases, and new_escalations <= flips <= cases without error |
| Replay.SameContentNoFlips | backend/replay/engine.py:132-222 | replaying a bundle against a reference of the same content hash reports no flips, when no string condition's value has two spellings that print differently |
| Replay.CosmeticDiffNoFlips | backend/replay/engine.py:132-222 | replay reports no flips over cases of workflows the diff touches only cosmetically, provided the kept policies print their string conditions alike |
| Replay.ReplayEngine.Run | backend/replay/engine.py:132-222 | stores nothing exactly when a case overflows; otherwise one new unacknowledged run pinned to the candidate's content hash, the reference's, and the hash of the case set, with the scored results |
| Replay.CaseSetHashIgnoresOrder | backend/replay/cases.py:36-38 | two case lists with the same cases, in any order, pin the same case-set hash |
| ReplayLaws.SameCaseSetExactly | backend/replay/cases.py:36-38 | with a collision-free digest two lists of distinct case ids share one case-set hash if and only if they have the same cases in every field, up to order and the spelling of integral numbers in facts |
| Replay.ReplayEngine.Acknowledge | backend/replay/engine.py:224-230 | marks exactly the named run, or changes nothing when it is unknown |
| Replay.ReplayRunStore.LatestAcknowledgedFor | backend/replay/engine.py:98-108 | an acknowledged run of the company for exactly that hash, none newer; None exactly when there is none |
| Lifecycle.BundleStore.ByHash | backend/bundle/lifecycle.py:96-100 | a row of the company with that content hash; None exactly when there is none |
| Lifecycle.BundleLifecycle.SaveDraft | backend/bundle/lifecycle.py:136-150 | returns the existing record of identical content and changes nothing, or adds exactly one record, a DRAFT of the given bundle, creator and time that was never published; keeps the registry invariant |
| Lifecycle.BundleLifecycle.Publish | backend/bundle/lifecycle.py:152-190 | unknown record exactly when absent; content already live changes nothing and returns the live record; the gate stays closed exactly when the content is not live and no acknowledged run exists for its hash; otherwise the record is PUBLISHED with the given time and person behind the newest acknowledged run for its hash, the company points to it, the record it pointed to is RETIRED and every other one is as before; keeps the registry invariant |
| Lifecycle.BundleLifecycle.Activate | backend/bundle/lifecycle.py:192-207 | allowed exactly for records that were published before; the record becomes PUBLISHED and is otherwise unchanged, the company points to it, the record it pointed to is RETIRED and every other one is as before; keeps the registry invariant |
| Lifecycle.DraftKeeps | backend/bundle/lifecycle.py:136-150 | drafting keeps content hashes distinct per company, DRAFT equivalent to never published, and one published record that is the active one |
| Lifecycle.PublishKeeps | backend/bundle/lifecycle.py:152-190 | publishing under an acknowledged run keeps the same invariant and loses or rewrites no record's content |
| Lifecycle.ActivateKeeps | backend/bundle/lifecycle.py:192-207 | so does activating |
| Lifecycle.RunsKeep | backend/replay/engine.py:84-96 | adding or acknowledging replay runs keeps it too: no published record loses its acknowledged run |
| Lifecycle.HalfPublishedBreaksInvariant | backend/bundle/lifecycle.py:186-189 | between the first and the second write of a publish two records are published, so only the three writes together keep the invariant |
| Lifecycle.RollbackRoundTrip | backend/bundle/lifecycle.py:192-207 | rolling back to an earlier published record and forward again restores the registry exactly |
| LedgerEvents.VerifyStream | backend/ledger/store.py:117-126 | verify_chain accepts exactly the streams in which every event verifies and names its predecessor's hash |
| ChainLaws.HeadIsHistory | backend/ledger/store.py:112-126 | with a collision-free digest two verified streams have the same head if and only if they are equally long and agree at every position on id, time, predecessor, type, company, workflow, actor, key, outcome, bundle hash, link, facts and trace, where facts and the values in the trace may differ in the spelling of an integral number only |
| ChainLaws.TamperingMovesTheHead | backend/ledger/store.py:112-126 | two verified streams that differ in any of these fields of any event have different heads |
| ChainLaws.RewrittenExactlyFails | backend/ledger/events.py:56-66 | a sealed event says what was sealed, and an event that keeps its hash verifies if and only if it says the same in all these fields |
| ChainLaws.ChainIsLinked | backend/ledger/store.py:117-126 | a stream is a verified chain if and only if every event's hash is that of its own content and it names the hash before it, the first one none |
| LedgerStores.InMemoryLedgerStore.Append | backend/ledger/store.py:61-78 | in this order: an unsealed event is refused and changes nothing, a used key returns its event and changes nothing, an event that does not name the stream's last hash is a conflict that changes no stream and no index, and any other is appended to its company's stream and indexed by key and id; streams only grow, and with a fresh id the store invariant is kept |
| LedgerStores.AppendKeeps | backend/ledger/store.py:61-78 | every append of an event with a fresh id keeps each stream verified, linked and free of repeated keys, and both indexes in agreement with the streams |
| LedgerStores.InMemoryLedgerStore.Get | backend/ledger/store.py:80-81 | finds an event by id exactly when the company's stream contains one |
| LedgerStores.InMemoryLedgerStore.ByIdempotencyKey | backend/ledger/store.py:83-86 | finds an event by key exactly when the company's stream contains one |
| LedgerStores.InMemoryLedgerStore.VerifyChain | backend/ledger/store.py:117-126 | true exactly when the company's stream is a verified chain |
| LedgerService.DecisionService.AppendSealed | backend/ledger/service.py:171-193 | eight attempts, each sealing against a freshly read head; whatever other writers append in between, the answer is an event stored under the caller's key (the caller's own, and then the newest, exactly when created) or unavailability, which takes at least eight foreign appends |
| LedgerService.DecisionService.Decide | backend/ledger/service.py:36-67 | a used key returns the original event and changes nothing; a request that does not evaluate, overflow included, changes nothing; otherwise the evaluator's ruling is what is sealed and appended: a created event records the company, workflow, facts, actor, key, outcome, trace and bundle hash of the call and no link, under the id and time of one attempt, its own hash and its predecessor's |
| LedgerService.DecisionService.RecordAdjudication | backend/ledger/service.py:69-110 | a rationale of nothing but Unicode whitespace is rejected and changes nothing; otherwise an adjudication is appended: a created event records the human's kind, action and rationale, the resolver and key of the call, and the original's workflow, facts and bundle hash, with its id as link and its id and outcome in the trace |
| LedgerService.AttemptsAnswered | backend/ledger/service.py:171-193 | every answer of the retry loop is in the ledger under the caller's key, the loop only extends streams, and it never offers an event the store refuses |
| LedgerService.AttemptsSealed | backend/ledger/service.py:140-193 | a created event carries the id and the time of one of the attempts, the hash of its own content, and the hash of the event right before it in the stream it heads |
| LedgerService.UnavailableMeansRivals | backend/ledger/service.py:171-193 | giving up means the company's stream grew by at least the number of attempts |
| LedgerService.AloneFirstAttemptSucceeds | backend/ledger/service.py:171-193 | without rivals the first attempt succeeds and creates exactly when the key was unused |
| LedgerService.EarlierEventWins | backend/ledger/store.py:66-69 | whatever is stored under the key before the call is what the call returns |
| LedgerService.CreatesExactlyOnFreeKey | backend/ledger/service.py:171-193 | while nobody else offers an event under the caller's key, the call creates its event exactly when the key was free before it; the event is then its own entry, and otherwise the one stored before |
| LedgerService.RetryReusesFirstEvent | backend/escalation/service.py:189-211 | a second call under the same key, after any appends of others, returns the first call's event, whatever the second one says: a retried resolution keeps the first ledgered ruling |
| LedgerProtocol.EveryRunIsSafe | backend/ledger/service.py:36-193 | in every interleaving of the key lookups, head reads and appends of any number of calls, each company's stream stays verified and linked with distinct keys, both indexes agree with it, every returned event is in it under the caller's key, and every event has exactly one creating call |
| LedgerProtocol.HistoryIsNeverRewritten | backend/ledger/store.py:61-78 | streams change only by extension at the end |
| LedgerProtocol.ReturnedEventsAreKept | backend/ledger/service.py:4-8 | an event ever handed to a caller is in the ledger after every later step |
| LedgerProtocol.EveryKeyHasACreator | backend/ledger/store.py:61-78 | every stored key was created by some call |
| LedgerProtocol.SameKeySameEvent | backend/ledger/store.py:20-24 | all callers sharing a key get the same event, and exactly one of them has created = True |
| LedgerProtocol.AbortMeansEightForeignAppends | backend/ledger/service.py:171-193 | a call that exhausted its attempts lost eight races that do not overlap: each time, between its head read and its own append, the company's stream grew by at least one event, and every such event was created by another call |
| LedgerProtocol.FewAppendsNeverAbort | backend/ledger/service.py:171-193 | with fewer than eight appends to the company since a call's first head read, contention does not abort it |
| LedgerInterleaving.RetryLoopIsTheProtocol | backend/ledger/service.py:171-193 | for every interleaving with steps of other calls, what the concurrent protocol does to a call from its first attempt to its answer, and to the ledger, is exactly what the retry loop computes with those calls' appends as its rivals |
| LedgerInterleaving.UsedKeyIsAnswered | backend/ledger/service.py:50-52 | a call that has yet to look its key up when it is used is answered with the event stored under it, whatever other calls do meanwhile; it never reads a head and never writes |
| LedgerInterleaving.RoundIsAttempt | backend/ledger/service.py:182-188 | one head read and append of a call, with others before and in between, is one attempt of the loop |
| LedgerInterleaving.StepsOffer | backend/ledger/store.py:61-78 | any steps of other calls change the ledger exactly by the events they offer, in that order |
| Escalations.HumansAreAskedForTheRightReason | backend/escalation/service.py:129-155 | no escalation exactly when a governing policy rules by itself without approval; authority_required and policy_directed exactly for the governing policy's authority and effect, with its approver role, action and id, or its action and id, as the detail; no_matching_policy exactly when every policy failed; conflict exactly on several finalists, listing them; missing_facts lists declared facts without a value, at least one |
| Escalations.EscalationStore.Add | backend/escalation/service.py:80-87 | a second escalation of a decision is not added, the first is returned; both indexes stay in agreement |
| Escalations.EscalationStore.ByDecision | backend/escalation/service.py:105-107 | the decision's escalation; None only if it has none |
| Escalations.OneEscalationPerDecision | backend/escalation/service.py:80-87 | under the desk invariant two escalations of one decision are the same |
| Escalations.EscalationService.OpenFor | backend/escalation/service.py:129-168 | opens a case exactly when the outcome escalates or needs approval; returns the existing case of the decision unchanged if there is one, and otherwise adds one OPEN row of its company, workflow, decision and time, whose reason and detail tell what the outcome says |
| Escalations.ToldExactly | backend/escalation/service.py:129-156 | what a human is told, field by field: approver role, action and policy for a ruling that needs approval, action and policy for a directed one, the missing facts, the tied policies, or nothing for no match; a recorded human ruling is referred on exactly if its kind reads escalate |
| Escalations.OpenedCaseNamesItsPolicy | backend/escalation/service.py:129-168 | the case opened for an evaluator's ruling that needs approval names the approver role, the action and the id of a policy that governs, and one opened for a directed ruling that policy's action and id |
| Escalations.EscalationService.Resolve | backend/escalation/service.py:170-217 | unknown, already resolved, missing decision, failed append and failed promotion leave the desk unchanged; otherwise exactly this row changes, to RESOLVED with the given action, kind, rationale, resolver, time and promotion, and names an event already in the ledger under adjudication: and the case's id, and, while nobody else writes under that key, that event says what the resolution says exactly when the key was free or held the same words; the ledger changes exactly by the adjudication's append |
| Escalations.LedgerSaysExactly | backend/escalation/service.py:189-206 | a recorded ruling is what the ledger says, in words and person, if and only if the adjudication key was free before the call or already held the same words, as long as nobody else writes under that key meanwhile |
| Escalations.TakenKeyNamesTheDecision | backend/escalation/service.py:189-199 | if a decision was recorded under a case's adjudication key, ruling on the case returns that decision instead of an adjudication |
| DecisionApi.EvaluateDecision | backend/v1_api.py:196-229 | without an active bundle nothing happens; a request that does not evaluate, overflow included, records nothing; otherwise the answer is the retry loop's, with the event it stored or its failure; a created event records the request, the active bundle's hash and that bundle's ruling, and has an escalation exactly when its outcome needs a human, which, unless the decision already had one, tells what the outcome says; a repeated key is answered with the stored event and its escalation |
| Governance.EveryRunIsGoverned | backend/v1_api.py:202-229 | the joint invariant holds in every state of every run of drafting, replaying a candidate over its cases, acknowledging, publishing, activating, deciding, opening, resolving and failing to promote, with ledger steps interleaved |
| Governance.DecisionsAreGoverned | backend/v1_api.py:203-216 | in every run each DECISION event's bundle_hash names a record of that company, published under an acknowledged run that replayed a bundle of exactly that content, and its outcome and trace are the evaluator's on that record's bundle |
| Governance.GateReplayedTheRecord | backend/replay/engine.py:132-222 | under the joint invariant, the run that gates a record holds the results, the totals and the hashes of replaying a registered bundle with that record's content against some reference |
| Governance.ReplayComparesWithPublished | backend/replay/engine.py:132-222 | a replay of a registered draft is filed, unacknowledged, under that draft's content hash, the hash of its cases and, exactly if a comparison is asked for and there is one, the hash of the company's published record; its results are those of the draft's bundle against that record's, and its summary is theirs |
| Governance.SameRequestSameOutcome | backend/bundle/canonical.py:61-70 | in every run, with a collision-free digest and bundles whose string conditions print one way, two DECISION events with equal bundle_hash, workflow and facts have equal outcomes, whatever the company |
| Governance.OnePublishedRecord | backend/bundle/lifecycle.py:152-207 | in every run a record is PUBLISHED exactly when it is its company's active one |
| Governance.RunsProgress | backend/bundle/lifecycle.py:136-207 | along every run no record is lost or rewritten, no ledger entry changes, no escalation is dropped or reopened, and no acknowledged run is revoked |
| RunLaws.EveryRunOutright | backend/ledger/service.py:36-193 | the joint invariant, outright, in every state of every run: each stream's events carry their company, their own hash, their predecessor's and keys and ids of their own; each record is filed under its key, addresses its accepted bundle, is a draft exactly while never published and once published names an acknowledged run of its company and content; a company has at most one published record and one per content; each case is about a recorded decision, tells what its outcome says, and once resolved names an event under adjudication: and its id; a decision has at most one case |
| RunLaws.NothingIsLost | backend/bundle/lifecycle.py:136-207 | over every run: streams only grow at their end, no record is lost or changed in bundle, hash, creation or having been published, no case is lost, redirected or reopened |
| Governance.NeverReopened | backend/escalation/service.py:170-211 | RESOLVED is never left, a case never changes what it is about, and each decision has at most one |
| Governance.AdjudicatedOnce | backend/escalation/service.py:188-197 | a decision, and so its escalation, has at most one ADJUDICATION event |
| Adjudications.AdjudicationsKeepTheDecision | backend/ledger/service.py:69-110 | in every run each ADJUDICATION event is a human's ruling on a DECISION event of the same stream: linked to it, with its workflow, facts and bundle hash, and with its id and outcome in the trace |
| Governance.ResolutionRulesUnlessKeyTaken | backend/escalation/service.py:188-211 | a RESOLVED escalation names the ledgered event under its adjudication key, and that event is an adjudication of its decision if and only if no decision was recorded under that key |
| Governance.ResolutionsAreAdjudications | backend/escalation/service.py:188-211 | in every run in which no client key starts with adjudication:, a RESOLVED escalation names an ADJUDICATION event in the ledger that is linked to its decision |
| Finality.LastWordsExactly | backend/escalation/service.py:183-215 | the words (action, kind, rationale, resolver) a resolved case may end with, over all continuations, are exactly its present ones and those of the rulings on it still in flight; a ruling whose promotion raised is no longer in flight |
| Finality.WordsAreFinalExactly | backend/escalation/service.py:183-215 | hence what a person decided about a resolved case is final if and only if every ruling on it still in flight says the same |
| Finality.ResolutionIsFinalExactly | backend/escalation/service.py:183-215 | the whole row of a resolved case, its time of resolution included, is final if and only if no other ruling on that case is in flight |
| Finality.NamedEventIsFinal | backend/escalation/service.py:183-215 | the ledger event a resolved case names never changes, even then |
| Faithfulness.FinishIsFaithfulExactly | backend/escalation/service.py:189-211 | a ruling that finishes leaves a case whose words are the ledger's if and only if its call created the event or the event that was there already says the same words |
| Faithfulness.StaysFaithfulExactly | backend/escalation/service.py:183-215 | a resolved case agrees with the ledger in every continuation if and only if it does now and every ruling on it in flight says what the ledger says |
| Faithfulness.OneVoiceIsFaithful | backend/escalation/service.py:170-211 | in every run in which all rulings on a case say the same words and no client key starts with adjudication:, a resolved case says exactly what its ledger event says |
| RivalRulings.LaterRulingOverwrites | backend/escalation/service.py:183-215 | for every accepted bundle, every request it refers to a human and any two different rulings there is a run to a case resolved with the first while the second is in flight, and on to a state where the second stands on the desk and the ledger event the case names still says the first |
| RivalRulings.RetryContradictsTheLedger | backend/escalation/service.py:203-211 | the same happens in a run that never has two rulings in flight: the first commits its event, its promotion raises, and a second person then resolves the case otherwise |
| RivalRulings.RivalsOverwrite | backend/escalation/service.py:183-215 | the first of these runs on a concrete bundle, request and pair of rulings |
| RivalRulings.RetriesContradict | backend/escalation/service.py:203-211 | and the second |
| ReservedKeyRun.ClientTakesTheKey | backend/escalation/service.py:188-211 | for every accepted bundle and every request it refers to a human there is a run, from the empty system through draft, replay, acknowledgement and publication, in which a client decides once more under the case's adjudication key and the case ends RESOLVED by that DECISION event |
| ReservedKeyRun.KeysCanBeTaken | backend/escalation/service.py:188-211 | such a run exists: a bundle with one workflow and no policy suffices |
| Sources.GroundEvidence | backend/onboarding/sources.py:58-88 | mints a citation exactly when the excerpt is the text at those offsets and not only Unicode whitespace, and the citation quotes the document |
| Sources.SourceStore.Add | backend/onboarding/sources.py:40-112 | stored snapshots are never replaced; a new one is filed under src_ and the first twelve characters of its digest, with the company, file name, text, prefixed digest and time of the upload; the stored text is the uploaded one exactly when no different text of the company has a digest with the same first twelve characters |
| Onboarding.OnboardingService.SaveDraft | backend/onboarding/service.py:51-74 | stores the proposal under status draft, keeping an existing draft's citations and creation time |
| Onboarding.OnboardingService.GroundSpan | backend/onboarding/service.py:76-104 | appends a citation exactly when the excerpt is the stored document's text at the span; otherwise changes nothing |
| Onboarding.OnboardingService.RemoveEvidence | backend/onboarding/service.py:106-123 | removes exactly the indexed citation and stamps the time, and changes nothing for an index out of range; the rest of the draft, its status included, is kept, and a publishable draft stops being publishable exactly when the citation was its last |
| Onboarding.LastCitationUnpublishes | backend/onboarding/service.py:106-123 | a publishable draft stays publishable without one of its citations exactly when it has another one; its status stays as it was |
| Onboarding.AcceptedWithoutCitations | backend/onboarding/service.py:106-123 | a concrete draft: accepted with one citation, which is then removed; it is still accepted, and no longer publishable, so that assembling fails |
| Onboarding.OnboardingService.SetStatus | backend/onboarding/service.py:125-136 | only a publishable draft becomes accepted |
| Onboarding.OnboardingService.ListAccepted | backend/onboarding/drafts.py:111-117 | exactly the company's accepted drafts, each once, newest edit first |
| Onboarding.OnboardingService.Assemble | backend/onboarding/service.py:140-165 | fails for no accepted draft, for an accepted draft that is not publishable, for a type clash, or for ids and overrides, each exactly then; otherwise returns a valid bundle of the company, of schema version 1, of exactly the accepted drafts' policies in their order, with the specs inferred from them; every citation is the exact text of a stored document |
| Onboarding.UploadsKeepDrafts | backend/onboarding/sources.py:103-112 | uploading documents never invalidates a draft's citations |
| Assembly.InferWorkflows | backend/onboarding/service.py:168-192 | raises exactly when one workflow uses a field at two types; otherwise one spec per workflow in ascending order, with the fields its conditions use in ascending order |
| Assembly.InferenceIsAccounted | backend/onboarding/service.py:168-192 | told without the loops: one spec per workflow some policy has, in ascending order, each declaring exactly the fields that policies of the workflow compare, each at the type they compare it at, in ascending order, with no default and no description |
| Assembly.FailsExactlyOnClash | backend/onboarding/service.py:174-184 | the nested loops fail exactly on a type clash, in any policy order |
| Assembly.InferredDeclares | backend/onboarding/service.py:185-192 | every condition's field is declared at its type by its policy's inferred workflow |
| Assembly.InferredWorkflowsValid | backend/onboarding/service.py:185-192 | every inferred workflow passes the schema's own checks |
| Assembly.AssemblyFailsOnlyOnIdsAndOverrides | backend/onboarding/service.py:157-165 | an assembled bundle is valid exactly when its policy ids are distinct, its overrides stay within a workflow, and they are acyclic |
| Assembly.AssembledHashIgnoresOrder | backend/onboarding/service.py:145-165 | the content hash of the assembled bundle does not depend on the order of the drafts |

## Left out

- Postgres and Supabase stores, SQL, connection handling: the in-memory stores are the stated contract.
- HTTP routing, authentication, roles, metrics and logging; of the endpoints only the order of calls in the decision endpoint is modelled.
- Bundle signing (Ed25519, section 5.1 of RFC 8032) and the fields it adds to a record; SHA-256 is an arbitrary function.
- The text that canonical JSON produces: the digest takes the canonical value itself. Key order inside objects, and the encoding of strings, are therefore not modelled.
- NaN and infinities as inputs; a float is its own real value. Which integers `float(...)` rejects and how it rounds the others is the abstract partial `toDouble`; strings are not parsed into numbers.
- Unicode stripping and case folding of string facts: `norm` is arbitrary.
- Error messages and the text of validation issues; each exception is a constructor.
- Listing and filtering endpoints, pagination, tenant provisioning and deletion, golden case storage, the promotion callback beyond whether it raises.
- The legacy compiler and agent, extraction by a language model, seeds, scripts and the frontend.
- A crash between the separate store writes of one lifecycle operation: `publish` and `activate` are single steps of the joint machine.
- Timestamps are integers; among replay runs with equal creation time, and drafts with equal edit time, any order is allowed.
- Copies the model does not repeat: the expectation inside a case result, the time of an acknowledgement, the byte length of a snapshot.
- Replay.Score: keeps the six accumulators of the loop in one summary record.
- EdgeEvaluator.EdgeEvaluateRequest: hash map order is not modelled; the members that depend on it are proved for every order.
- LedgerService.DecisionService.AppendSealed: storage failures other than a lost race are not modelled, since the in-memory store has none.
- Governance.EveryRunIsGoverned: a decision fixes its bundle and ruling when it starts, as the endpoint does by reading the active record first; the evaluation itself takes no step.
- Escalations.EscalationService.Resolve: when other writers use the case's own key during the call, says only that the key holds the named event; the joint machine covers that case.
- Python's limit on the number of digits of an integer that is read from or printed as text.
- Overrides.CycleCheck.Visit: the recursion depth limit of Python is not modelled.
