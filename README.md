# Bidding rules and the bidding engine, modelled in Dafny

This project models the rule machinery of the SAYC bridge bidder (saycbridge, `z3b`). It covers two parts.

- **The bidding engine of `gae/z3b/bidder3.py`:**
  - the hand-shape formulas (axioms, rule of twenty and nineteen, balanced);
  - the rule preconditions (the jump family, raises, unbid suits);
  - the constraint objects `MinLength` and `MinimumCombinedLength`;
  - `Rule`: its `__init__` checks, the calls it offers, its per-call constraints and priority, and `priority_for_call_and_hand`;
  - `PartialOrdering`;
  - the immutable `History` chain, with what each seat has shown;
  - `PossibleCalls.calls_of_maximal_priority`;
  - `RuleSelector`: the call-to-rule map and the situational formulas of `compile_constraints_for_call`;
  - `Interpreter.create_history` and `Bidder.find_call_for`.
- **The rule compiler of `src/z3b/rule_compiler.py`:** it flattens a DSL rule class and its ancestors into a `CompiledRule`. The compiled rule answers four questions:
  - which calls it offers (`calls_over`);
  - what a call means and with which priority (`meaning_of`, `per_call_constraints_and_priority`);
  - which annotations a call carries;
  - whether the rule needs planning.

The z3 solver is replaced by its definition. A formula is *possible* given a seat's knowledge when some shape satisfies both the knowledge and the formula. The shape's four suit lengths lie in 0..13 and its points in 0..37. A formula is *entailed* when its negation is impossible. `Solving.PossibleIsSatisfiable` shows that this bounded check answers the solver's unbounded question, because every knowledge list starts with the axioms. `Solving.PossibleAtHand` shows that a solver seeded with a hand evaluates formulas at that hand.

Where the source mutates state, the model does too. `PartialOrdering` and `PossibleCalls` are classes over their fields. `RuleSelector` is a class with its two caches. `Interpreter` and `Bidder` run their loops. `_flatten_tuple_keyed_dict`, `_fits_preconditions`, `min_length_for_position` and `is_unbid_suit` are methods with loops. `_compile_annotations` is a method without a loop: it builds the set, then adds `Artificial` to it. Each method is proved equal to a specification function, and the lemmas state what the source promises about that function.

Modules, one per file:
- `Wrappers` (wrappers.dfy): Option and Result.
- `Seqs` (seqs.dfy): sequences, and association lists standing for dictionaries.
- `Calls` (calls.dfy)
- `Formulas` (formulas.dfy)
- `Solving` (solving.dfy)
- `Histories` (history.dfy)
- `Preconditions` (preconditions.dfy)
- `ConstraintSpecs` (specs.dfy): constraint lists as rules write them.
- `Rules` (rules.dfy): the engine's `Rule` and its constraint objects.
- `SaycRules` (sayc.dfy): three SAYC openings as concrete rules.
- `Ordering` (ordering.dfy)
- `Maximal` (maximal.dfy): `PossibleCalls`.
- `Selector` (selector.dfy): `RuleSelector`.
- `Bidding` (bidder.dfy): `Interpreter`, `Bidder`, and the SAYC system.
- `RuleCompiler` (compiler.dfy)

Where the system's design description and the code differ, the model follows the code:
- **Rules tied in category.** `rule.category > existing.category` keeps the first rule registered on a tie. It does not overwrite it.
- **Inherited list properties.** An ancestor that does not redefine a list property repeats its parent's entries in the joined list, because `getattr` is inherited.
- **Known calls.** They are a list, in dictionary order, not a set.

## Model

| member | source | states |
|---|---|---|
| Formulas.AxiomsMeanHandShape | gae/z3b/bidder3.py:16-23 | the axioms hold exactly for shapes of thirteen cards in non-negative suits with 0 to 37 points |
| Formulas.HoldsRuleOf | gae/z3b/bidder3.py:25-39 | rule of twenty / nineteen holds iff one of the six suit pairs plus points reaches the bound |
| Formulas.RuleOfMeansTwoSuits | gae/z3b/bidder3.py:25-39 | the rule of n holds iff two different suits' lengths plus the points reach n |
| Formulas.HoldsBalanced | gae/z3b/bidder3.py:43-50 | balanced holds iff every suit has two or more cards and three suits have more than two |
| Formulas.BalancedMeansOneDoubletonAtMost | gae/z3b/bidder3.py:43-50 | balanced holds iff no suit is shorter than two and at most one suit has exactly two |
| Solving.HandKnowledge | gae/z3b/bidder3.py:72-76 | a hand's solver starts with the axioms |
| Solving.PossibleIsSatisfiable | gae/z3b/bidder3.py:748-753 | for knowledge that starts with the axioms, the bounded check is satisfiability over all integers |
| Solving.EntailedIsValidity | gae/z3b/bidder3.py:740-745 | is_valid holds iff the formula is true at every assignment the knowledge allows |
| Solving.PossibleAtHand | gae/z3b/bidder3.py:72-76 | a formula is possible for a hand's solver iff the hand is a hand shape and the formula holds at it |
| Solving.HandKnowledgeFixesShape | gae/z3b/bidder3.py:59-66 | expr_for_hand allows only the hand's own shape |
| Solving.PossibleShrinks | gae/z3b/bidder3.py:748-753 | adding knowledge never makes an impossible formula possible |
| Solving.EntailedGrows | gae/z3b/bidder3.py:740-745 | adding knowledge never loses an entailment |
| Preconditions.CheapestLevel | gae/z3b/bidder3.py:183-188 | the level of the cheapest bid of a strain that outranks the last bid, and no lower level outranks it |
| Preconditions.JumpSizeCountsSkippedLevels | gae/z3b/bidder3.py:183-188 | _jump_size is the call's level minus the cheapest level of its strain; a bid outranks the last iff the size is non-negative |
| Preconditions.JumpPreconditionsMean | gae/z3b/bidder3.py:190-235 | for a bid outranking the base call, Jump() holds iff it skips a level and NotJump holds iff it is the cheapest bid; a pass or a missing or non-bid base call never fits |
| Preconditions.DoubleIsJudgedByLastContract | gae/z3b/bidder3.py:193-194 | a double or redouble is a jump exactly when the last contract would be |
| Preconditions.JumpOfDoubleMeasuresLastContract | gae/z3b/bidder3.py:193-199 | once the base call is a bid, the contract a double is measured from exists |
| Preconditions.InvertedFlips | gae/z3b/bidder3.py:121-129 | notX fits iff X does not; a double inversion fits as X does |
| Preconditions.RaiseMeansPartnerShowedThree | gae/z3b/bidder3.py:164-169 | a raise repeats partner's last suit bid, and every hand partner's knowledge allows holds three cards there |
| Histories.Root | gae/z3b/bidder3.py:758-762 | the root history is valid, has no calls and no predecessor |
| Histories.ExtendWith | gae/z3b/bidder3.py:768-774 | extend_with gives a state whose calls, annotation and constraint lists are each one longer, whose predecessor is the receiver |
| Histories.ValidLengths | gae/z3b/bidder3.py:768-774 | the call, annotation and constraint lists of a valid history have one length |
| Histories.OffsetFromDealer | gae/z3b/bidder3.py:776-777 | the offset lies in 0..3 and is congruent to len - 1 - position.index modulo 4 |
| Histories.EveryFourth | gae/z3b/bidder3.py:782 | items[start::4]: the items at start, start + 4, ... and no others |
| Histories.Project | gae/z3b/bidder3.py:779-782 | _project_for_position returns the items at indices ≡ (len - 1 - index) mod 4 in order; its last is the seat's newest item, or it is empty |
| Histories.ProjectHoldsResidueClass | gae/z3b/bidder3.py:779-782 | every item at an index of the seat's residue is in the projection, at index / 4 |
| Histories.PositionInPreviousHistory | gae/z3b/bidder3.py:784-785 | the seat one place to the right: index (index - 1) mod 4 |
| Histories.PreviousSeats | gae/z3b/bidder3.py:784-785 | RHO was Me one call earlier; Partner was RHO, LHO was Partner, Me was LHO |
| Histories.Knowledge | gae/z3b/bidder3.py:788-800 | solver_for_position as the formulas it holds, which always start with the axioms |
| Histories.KnowledgeStep | gae/z3b/bidder3.py:794-800 | a seat knows what the seat to its right knew one call earlier, plus the newest constraint when that seat was Me |
| Histories.ProjectAfterAppend | gae/z3b/bidder3.py:779-782 | after one more item each seat's projection is that of the seat to its right before; the caller, now RHO, gains the new item |
| Histories.KnowledgeIsOwnConstraints | gae/z3b/bidder3.py:788-800 | a seat's knowledge is the axioms followed by the constraints of the calls that seat made, in order |
| Calls.LastCallBy | gae/z3b/bidder3.py:733-734 | the last of the calls made from one dealer offset, or None when that seat has not called |
| Calls.LastContract | gae/z3b/bidder3.py:194 | some call of the history is a bid iff there is a last contract; it is the most recent bid, with no bid after it |
| Histories.LastCallOf | gae/z3b/bidder3.py:732-734 | last_call of a seat is the call len - 1 - index, or None before the seat has called |
| Histories.AnnotationsForLastCall | gae/z3b/bidder3.py:805-809 | the annotations of the seat's newest call, or [] when it has none |
| Histories.AnnotationsForPositionMeans | gae/z3b/bidder3.py:802-803 | an annotation is among the seat's iff a call of the seat's residue recorded it |
| Histories.MinLengthOf | gae/z3b/bidder3.py:811-819 | the result lies in 0..13, is entailed when positive, and no longer length is entailed |
| Histories.MinLengthForPosition | gae/z3b/bidder3.py:811-819 | the scan loop returns the largest entailed length in 13..1, else 0 |
| Histories.MinLengthUnique | gae/z3b/bidder3.py:811-819 | any result meeting the scan's contract is MinLengthOf |
| Histories.MinLengthIsLowerBound | gae/z3b/bidder3.py:811-819 | every hand the knowledge allows holds at least the minimum length |
| Histories.MinLengthIsAttained | gae/z3b/bidder3.py:811-819 | for consistent knowledge some allowed hand holds exactly the minimum length |
| Histories.IsUnbidSuit | gae/z3b/bidder3.py:821-828 | true iff fewer than three cards is possible for all four seats |
| Histories.IsUnbidSuitScan | gae/z3b/bidder3.py:821-828 | the loop over the seats, stopping at the first refusal, computes the same |
| Histories.ShortPossibleIffMinLengthBelowThree | gae/z3b/bidder3.py:811-828 | "suit < 3" is possible iff the minimum length is below three |
| Histories.UnbidSuitMeansNoSeatShowedLength | gae/z3b/bidder3.py:811-828 | a suit is unbid iff no seat's minimum length in it is three or more |
| ConstraintSpecs.ExprsFrom | src/z3b/rule_compiler.py:133-144 | never empty; a falsy list gives [NO_CONSTRAINTS], a formula or object a singleton |
| ConstraintSpecs.ExprsFromMeans | gae/z3b/bidder3.py:313-323 | the flattened formulas hold at a hand iff every element of the nested list does |
| ConstraintSpecs.ExprsFromItemsAppend | src/z3b/rule_compiler.py:133-144 | a list's formulas are its elements' formulas concatenated in order |
| Rules.ImpliedLength | gae/z3b/bidder3.py:504 | max(min_count - partner's length, 0): non-negative, and one of the two |
| Rules.MinimumCombinedLengthGuarantees | gae/z3b/bidder3.py:497-505 | a hand meeting MinimumCombinedLength(n) and any hand partner's knowledge allows hold n cards in the suit together |
| Rules.MinimumCombinedLengthIsTight | gae/z3b/bidder3.py:497-505 | some hand partner's knowledge allows leaves every rejected hand short of n together |
| Rules.MinLengthMeans | gae/z3b/bidder3.py:508-513 | MinLength(n) holds iff the suit of the call has n cards or more |
| Rules.EvaluableWhenDefined | gae/z3b/bidder3.py:313-323 | every constraint object of a list defined for the call yields a formula |
| Rules.InitCheck | gae/z3b/bidder3.py:254-258 | passing needs a priority or constraints, and conditional priorities only with a call name and no constraints; a rule with neither priority nor constraints gets the missing-priority message |
| Rules.PossibleCallsOver | gae/z3b/bidder3.py:272-282 | call_name, else call_names, else the constraints keys, else the explorer's calls |
| Rules.Fitting | gae/z3b/bidder3.py:266-270 | a call is kept iff it was offered and every precondition fits it |
| Rules.CallsOver | gae/z3b/bidder3.py:284-287 | calls_over yields exactly the offered calls every precondition fits |
| Rules.PerCallConstraintsAndPriority | gae/z3b/bidder3.py:330-340 | no entry gives (None, rule priority); a per-call priority differs from the rule's only for a pair ending in a priority |
| Rules.ConstraintsExprForCall | gae/z3b/bidder3.py:342-348 | fails exactly when the per-call entry cannot be unpacked; otherwise an And |
| Rules.ConstraintsExprMeans | gae/z3b/bidder3.py:342-348 | the expression holds iff the call's own constraints (if any) and the shared constraints hold |
| Rules.PossiblePrioritiesAndConditions | gae/z3b/bidder3.py:289-296 | the conditional priorities in order, then the call's priority with NO_CONSTRAINTS; fails iff the priority is missing |
| Rules.FirstPossibleCondition | gae/z3b/bidder3.py:303-305 | the priority of the first possible condition, None iff none is possible |
| Rules.PriorityForCallAndHand | gae/z3b/bidder3.py:298-311 | fails exactly when the constraint expression fails |
| Rules.PriorityForHandMeans | gae/z3b/bidder3.py:298-311 | None when the hand misses the constraints; else the first conditional priority whose condition holds; else the per-call or rule priority |
| Rules.FirstPossibleConditionAtHand | gae/z3b/bidder3.py:303-305 | on a hand's solver, the first conditional priority whose condition holds at the hand |
| Rules.NamedCalls | gae/z3b/bidder3.py:275-280 | calls a rule names itself are offered whatever the history |
| Rules.WellFormedRuleEvaluates | gae/z3b/bidder3.py:289-296 | every call a well-formed rule offers has defined constraints and a priority |
| Rules.InitCheckCorrected | gae/z3b/bidder3.py:255 | the corrected check passes only rules the written check passes |
| Rules.InitCheckLetsMissingPriorityThrough | gae/z3b/bidder3.py:255 | a rule with a constraints dict and no priority passes __init__ and then fails in possible_priorities_and_conditions_for_call |
| SaycRules.OpeningsAreWellFormed | gae/z3b/bidder3.py:363-428 | the three openings pass the corrected checks and are well formed |
| SaycRules.OneSpadeOpeningPriority | gae/z3b/bidder3.py:395-401 | 1S: None without rule of twenty and five spades; LongestMajor when spades outnumber hearts; else HigherMajor |
| SaycRules.OneSpadeConstraintsMean | gae/z3b/bidder3.py:395-401 | the 1S constraints hold iff rule of twenty and five spades |
| SaycRules.NoTrumpOpeningPriorityFor | gae/z3b/bidder3.py:404-410 | 1N with 15-17 balanced, 2N with 20-21 balanced, at the notrump opening priority, else None |
| SaycRules.StrongTwoClubsPriorityFor | gae/z3b/bidder3.py:425-428 | 2C with 22 points or more at the StrongTwoClubs priority, else None |
| SaycRules.OpeningsBeforeAndAfterOpening | gae/z3b/bidder3.py:132-134 | before an opening each opening offers its calls; after one, none offers anything |
| Ordering.PartialOrdering.constructor | gae/z3b/bidder3.py:672-673 | a new ordering has no records |
| Ordering.PartialOrdering.MakeLessThan | gae/z3b/bidder3.py:675-677 | the records become Recorded(old records, lesser, greater) |
| Ordering.Recorded | gae/z3b/bidder3.py:675-677 | lesser gains greater and everything above greater; no other entry changes |
| Ordering.WithinEnumIsStrictTotalOrder | gae/z3b/bidder3.py:684-685 | within one enum less_than is irreflexive, total on distinct values and transitive |
| Ordering.AcrossEnumsFollowsRecords | gae/z3b/bidder3.py:682-683 | across enums less_than holds iff the right enum is recorded above the left |
| Ordering.MakeLessThanEffect | gae/z3b/bidder3.py:675-685 | after make_less_than, lesser is below greater and all above it; old facts stay; other enums compare as before |
| Ordering.ClosedRecordsAreTransitive | gae/z3b/bidder3.py:679-685 | closed, irreflexive records give a transitive less_than |
| Ordering.MakeLessThanKeepsClosed | gae/z3b/bidder3.py:675-677 | make_less_than keeps the records closed and irreflexive |
| Maximal.PossibleCalls.constructor | gae/z3b/bidder3.py:851-853 | a new set of possible calls over the ordering, holding no calls |
| Maximal.PossibleCalls.AddCallWithPriority | gae/z3b/bidder3.py:855-856 | appends the pair |
| Maximal.PossibleCalls.IsDominated | gae/z3b/bidder3.py:858-863 | true iff some kept priority is above the given one |
| Maximal.PossibleCalls.CallsOfMaximalPriority | gae/z3b/bidder3.py:865-872 | the loop returns the calls of the frontier of the recorded pairs |
| Maximal.Survivors | gae/z3b/bidder3.py:870 | the kept pairs not below the new priority |
| Maximal.FrontierIsSubsequence | gae/z3b/bidder3.py:865-872 | the result is a subsequence of the input, in input order |
| Maximal.FrontierInInput | gae/z3b/bidder3.py:865-872 | every kept pair was given |
| Maximal.FrontierIsAntichain | gae/z3b/bidder3.py:865-872 | no kept priority is less_than another kept one |
| Maximal.DroppedWasDominated | gae/z3b/bidder3.py:865-872 | every dropped pair is below some given pair |
| Maximal.FrontierIsMaximal | gae/z3b/bidder3.py:865-872 | under a transitive ordering the kept pairs are exactly those below no given priority |
| Maximal.EqualPrioritiesShareFate | gae/z3b/bidder3.py:865-872 | two given pairs of equal priority are kept or dropped together |
| Selector.Offered | gae/z3b/bidder3.py:908-909 | rule by rule, the calls calls_over yields after the history |
| Selector.RegisterEffect | gae/z3b/bidder3.py:910-912 | a rule takes its call when the call is free or its category is strictly higher; nothing else changes |
| Selector.RegisterAllEffect | gae/z3b/bidder3.py:909-912 | over a rule's calls, the same for every call it offers |
| Selector.RegisterRulesKeysUnique | gae/z3b/bidder3.py:903-913 | the call-to-rule map holds each call once |
| Selector.RegisterRulesUnclaimed | gae/z3b/bidder3.py:903-913 | a call maps to no rule iff no rule offers it |
| Selector.RegisterRulesWinner | gae/z3b/bidder3.py:903-913 | a call maps to the first rule of the highest category among those offering it |
| Selector.CallToRuleUnclaimed | gae/z3b/bidder3.py:903-916 | after a history, a call has no rule iff no rule's calls_over yields it |
| Selector.CallToRuleWinner | gae/z3b/bidder3.py:903-916 | after a history, the rule of a call offers it and is the first of the highest category |
| Selector.CallToRuleEvaluates | gae/z3b/bidder3.py:903-916 | with well-formed rules every entry of the map can be evaluated |
| Selector.BlockersFromMean | gae/z3b/bidder3.py:932-934 | the exclusions of one entry hold iff none of its higher-priority meanings is met with its constraints |
| Selector.BlockersMean | gae/z3b/bidder3.py:931-934 | the exclusions hold iff no entry of the map could have been made at a higher priority |
| Selector.SituationsMean | gae/z3b/bidder3.py:927-936 | the Or of situations holds iff some meaning's condition holds and it is unopposed |
| Selector.CompiledConstraintsMean | gae/z3b/bidder3.py:918-938 | compiled constraints hold iff some meaning of the call holds and no call of the map outranks it |
| Selector.CandidatesMean | gae/z3b/bidder3.py:940-950 | (c, p) is a candidate iff c is worth trying, has a rule, and that rule gives the hand priority p |
| Selector.RuleSelector.constructor | gae/z3b/bidder3.py:897-901 | a selector over the history with both caches empty |
| Selector.RuleSelector.CallToRuleMap | gae/z3b/bidder3.py:903-913 | returns the call-to-rule map of the history and caches it; the other cache is unchanged |
| Selector.RuleSelector.RegisterCalls | gae/z3b/bidder3.py:909-912 | the inner loop registers each call of a rule in turn |
| Selector.RuleSelector.RuleForCall | gae/z3b/bidder3.py:915-916 | the rule the map gives the call, if any |
| Selector.RuleSelector.CompileConstraintsForCall | gae/z3b/bidder3.py:918-938 | the compiled constraints of the call; a cache hit changes nothing, a miss stores the result |
| Selector.RuleSelector.CompileAndStore | gae/z3b/bidder3.py:927-937 | builds the situations, stores and returns their disjunction |
| Selector.RuleSelector.SituationsFor | gae/z3b/bidder3.py:929-935 | one situation per meaning, in order |
| Selector.RuleSelector.SituationalConstraints | gae/z3b/bidder3.py:930-934 | the condition, then every exclusion ranked above it |
| Selector.RuleSelector.Exclusions | gae/z3b/bidder3.py:932-934 | the exclusion of each higher-priority meaning of one entry |
| Selector.RuleSelector.PriorityForHand | gae/z3b/bidder3.py:944-949 | one loop step: the priority the hand gives the call under the rule of the map, or None without a rule |
| Selector.RuleSelector.PossibleCallsForHand | gae/z3b/bidder3.py:940-950 | a new PossibleCalls holding every candidate with its priority, in the explorer's order |
| Bidding.InterpretedHistory | gae/z3b/bidder3.py:958-977 | the history read from the calls is valid and holds exactly those calls |
| Bidding.InterpretedStep | gae/z3b/bidder3.py:962-975 | reading one more call extends the history by that call's annotations and constraint |
| Bidding.InterpretedPrefix | gae/z3b/bidder3.py:958-977 | what is recorded for the i-th call depends only on the calls before it |
| Bidding.StepConstraintMeans | gae/z3b/bidder3.py:968-973 | the recorded constraint holds iff no rule speaks for the call, or the hand meets the rule's constraints and the compiled situation |
| Bidding.InterpretedHistoryRecords | gae/z3b/bidder3.py:958-977 | the i-th call carries its rule's annotations (or none) and a constraint meaning what the call conveys; no rule means NO_CONSTRAINTS |
| Bidding.Interpreter.constructor | gae/z3b/bidder3.py:954-956 | an interpreter over the given rules, ordering and explorer |
| Bidding.Interpreter.CreateHistory | gae/z3b/bidder3.py:958-977 | the loop returns InterpretedHistory of the calls |
| Bidding.Interpreter.ReadCall | gae/z3b/bidder3.py:963-975 | one loop step extends the history by the call's step |
| Bidding.Interpreter.RuleConstraints | gae/z3b/bidder3.py:972-973 | And(rule constraints, compiled constraints) for a call with a rule |
| Bidding.WithoutPlanningKeeps | gae/z3b/bidder3.py:889 | the filter keeps exactly the calls whose rule needs no planning |
| Bidding.WithoutPlanningFirst | gae/z3b/bidder3.py:889-893 | the first kept call is the first call whose rule needs no planning |
| Bidding.Bidder.constructor | gae/z3b/bidder3.py:876-878 | a bidder over the given rules, ordering and explorer |
| Bidding.Bidder.FindCallFor | gae/z3b/bidder3.py:880-893 | find_call_for returns ChosenCall of the hand and the calls |
| Bidding.FrontierCallsHaveRules | gae/z3b/bidder3.py:885-889 | every maximal call has a rule |
| Bidding.FirstUnplannedIsMaximal | gae/z3b/bidder3.py:885-893 | the first kept call is unplanned, of maximal priority, and every maximal call before it needs planning |
| Bidding.ChosenCallMeans | gae/z3b/bidder3.py:880-893 | None iff every maximal call needs planning; else an unplanned call whose priority no candidate exceeds, the first such |
| Bidding.SaycPriorityOrdering | gae/z3b/bidder3.py:702-704 | the SAYC ordering records response priorities below notrump response priorities |
| Bidding.SaycOrderingRanks | gae/z3b/bidder3.py:699-704 | under the SAYC records less_than is the within-enum order plus response below nt_response, and is transitive |
| Bidding.SaycBidder | gae/z3b/bidder3.py:876-878 | a bidder over the SAYC rules and ordering |
| Bidding.SaycChoiceIsMaximal | gae/z3b/bidder3.py:880-893 | with SAYC, the chosen call's priority is exceeded by no candidate's |
| RuleCompiler.EnsureList | src/z3b/rule_compiler.py:153-156 | a single value becomes a one-element list; a list is kept |
| RuleCompiler.Inherited | src/z3b/rule_compiler.py:147-150 | getattr: the class's own value, else the nearest ancestor's, else the base default |
| RuleCompiler.JoinedParentsFirst | src/z3b/rule_compiler.py:147-162 | the joined list is the parent's followed by the class's; a class that does not redefine repeats its parent |
| RuleCompiler.JoinedMembers | src/z3b/rule_compiler.py:159-162 | an item is joined iff some ancestor resolves the property to a list holding it |
| RuleCompiler.AddNamesMeans | src/z3b/rule_compiler.py:180-183 | a tuple key's names are added iff none is present or repeated; each gets the key's value |
| RuleCompiler.FlattenedMeans | src/z3b/rule_compiler.py:177-187 | flattening succeeds iff no name occurs twice, and then maps each name of each key to its value, in key order |
| RuleCompiler.FlattenedLookup | src/z3b/rule_compiler.py:177-187 | every name of a key looks up that key's value |
| RuleCompiler.FlattenedLookupAbsent | src/z3b/rule_compiler.py:177-187 | a name no key stands for looks up nothing |
| RuleCompiler.FlattenTupleKeyedDict | src/z3b/rule_compiler.py:177-187 | the nested loops compute Flattened, failing at the first repeated name |
| RuleCompiler.KnownCalls | src/z3b/rule_compiler.py:165-174 | call_names, else priorities_per_call keys (checked against constraints keys), else constraints keys; never empty |
| RuleCompiler.KnownCallsFromDsl | src/z3b/rule_compiler.py:165-174 | the compiled known calls against the class's own declarations, in that precedence |
| RuleCompiler.AnnotationSet | src/z3b/rule_compiler.py:190-196 | the joined annotations, plus Artificial iff one of them implies it, and nothing else |
| RuleCompiler.CompileAnnotations | src/z3b/rule_compiler.py:190-196 | the method computes AnnotationSet |
| RuleCompiler.ValidateRule | src/z3b/rule_compiler.py:199-223 | passes iff constraints or shared constraints exist, conditional_priorities come without constraints and with call_names, and no unexpected public property |
| RuleCompiler.Compile | src/z3b/rule_compiler.py:232-246 | compile, step by step, equals Compiled |
| RuleCompiler.CompiledMeans | src/z3b/rule_compiler.py:226-246 | compile succeeds iff validation passes, no name repeats in the three dicts and known calls exist; the result holds the flattened dicts, joined lists, non-empty known calls and the default priority |
| RuleCompiler.AnnotationsForCall | src/z3b/rule_compiler.py:47-52 | the base annotations, plus the call's per-call annotations when listed |
| RuleCompiler.FitsPreconditions | src/z3b/rule_compiler.py:72-82 | true iff every precondition fits; false names one that does not |
| RuleCompiler.CallsOver | src/z3b/rule_compiler.py:84-87 | (category, c) iff c is legal, known, and fits every precondition |
| RuleCompiler.PerCallFromDsl | src/z3b/rule_compiler.py:119-129 | a pair gives its constraints and priority or fails when the priority is missing; plain or absent entries take priorities_per_call or the default |
| RuleCompiler.DeclaredPriorityLookup | src/z3b/rule_compiler.py:226-229 | the flattened per-call priority, else the default, is the declared one |
| RuleCompiler.ConstraintExprsForCall | src/z3b/rule_compiler.py:89-95 | fails exactly when per_call_constraints_and_priority fails |
| RuleCompiler.ConstraintExprsForCallMeans | src/z3b/rule_compiler.py:89-95 | the formulas hold iff the call's own and every shared constraint hold |
| RuleCompiler.MeaningsMean | src/z3b/rule_compiler.py:97-111 | for the intended meaning_of (every condition's formulas concatenated to the call's): per-call conditions, rule conditions and the fallback, each with its priority and meaning |
| RuleCompiler.MeaningOfMeans | src/z3b/rule_compiler.py:89-111 | meaning_of as written succeeds iff the priority is present and no condition it goes through is a non-empty list; a missing priority fails first, with its own message, and a list condition then fails with the TypeError; success gives exactly the intended meanings |
| RuleCompiler.MeaningOfCorrectedMeans | src/z3b/rule_compiler.py:97-111 | the intended meaning_of fails iff the priority is missing; otherwise per-call + rule-level + 1 entries, each holding iff the constraints and its condition do |
| RuleCompiler.ListConditionRaises | src/z3b/rule_compiler.py:103-107 | a class with call_names '1H' and a conditional priority whose condition is a two-element list compiles; its meaning_of fails with the TypeError, where the intended one yields two meanings |

## Left out

- The z3 solver (`Solver`, `push`/`pop`, `check`) is replaced by bounded quantification over shapes. Memoization (`@memoized`), `SolverPool` and the `take` mutation of cached solvers are left out. Knowledge is an immutable list of formulas.
- `CallHistory`, `Call.from_string`, `CallExplorer` and `Hand` are not part of this model:
  - a call is a datatype, and call names in the compiler stand for calls;
  - the explorer's possible calls are a function parameter;
  - a hand is its shape: four suit lengths and its points.
- `ascending_partial_histories` is modelled as reading the calls prefix by prefix.
- Reflection (`_get_subclasses`, `_concrete_rule_classes`, `__dict__` introspection, the C3 order) is left out:
  - the rules of the system are an explicit list;
  - a class's own extra properties are an explicit set;
  - the method resolution order is a given sequence.
- The SAYC system is modelled with three of its rules: the 1S opening, the notrump openings and strong 2C. The other rule classes of the file are not modelled.
- Debug prints, the exception re-raise in `_fits_preconditions`, `expected_call`, `explanation_for_bid`, `sayc_page_for_bid`, `__repr__`, `name` and the never-instantiated `Rule.__init__` of the compiler are left out.
- Selector.HigherPriority: `compile_constraints_for_call` compares priorities with a raw `<` even across enums, where Python 2 gives an arbitrary answer. The model compares within one enum only.
- Selector.RuleSelector.CompileConstraintsForCall: takes its history from the selector, not from the parameter. Its callers always pass the selector's own history.
- Selector.RuleSelector.PossibleCallsForHand: ignores the `history` parameter and evaluates priorities over the selector's own history, for the same reason.
- Rules.ConstraintExpr: `MinLength` and `MinimumCombinedLength` are modelled only for suit bids. For a notrump bid the source's `expr_for_suit` raises IndexError, and for pass, double or redouble it raises TypeError. The model does not capture those failures: a rule must attach these constraints to suit bids only, and the SAYC rules do.
- RuleCompiler.MeaningOf: meaning_of is a generator, so it yields its first meanings before it raises. The model gives either every meaning or the error, as a caller that lists the generator sees it.
- Dictionary iteration order (the call-to-rule map and the DSL dictionaries) is modelled as insertion order. Python 2 leaves it unspecified; it changes only the order of conjuncts and of known calls.
- RuleCompiler.KnownCalls: compares the key sets of priorities_per_call and constraints. Python 2 compares the key lists, whose order is unspecified.
- RuleCompiler.PerCallConstraintsAndPriority: a list entry of `constraints` is modelled as a pair. An entry that is a list of other length fails the source's assertion and is not modelled.
- `annotations_per_call` with tuple keys, and list-valued attributes set to `None`, are not modelled.
- Constraint and precondition objects of the compiler's imported modules are parameters: what a constraint object means for a call, and whether a precondition fits.
- `Precondition.fits` of the compiler's precondition objects may raise; the model takes the parameter as total.
- Bidding.Interpreter.constructor: takes the rules, ordering and explorer as parameters where the source always uses the SAYC system. `Bidding.SaycBidder` builds the SAYC bidder. The same holds for `Bidding.Bidder.constructor`.
- The truthiness of enum values, rules and formulas is taken as always true, as in the source.

## Findings

| source | as written | input that shows it | evidently intended | confidence | as-written member | corrected member |
|---|---|---|---|---|---|---|
| gae/z3b/bidder3.py:255 | `assert self.priority or self.constraints` accepts a rule with a constraints dict whose entries carry no priority | a rule with `constraints = {'1H': hearts >= 5}` and no priority passes `__init__`, then `possible_priorities_and_conditions_for_call(1H)` fails `assert priority` | a rule without its own priority gives one in every constraints entry (the message says "missing priority") | medium, not executed | Rules.InitCheckLetsMissingPriorityThrough | Rules.InitCheckCorrected |
| src/z3b/rule_compiler.py:103, 107 | `exprs + condition_exprs` adds a list to what exprs_from_constraints returns, which for a non-empty list is an `itertools.chain` (line 144) | a class with `call_names = '1H'`, shared constraints, a priority and `conditional_priorities = [([points >= 12, points >= 16], Q)]`: compile succeeds and `meaning_of(1H)` raises TypeError | the condition's formulas concatenated to the call's | high, not executed | RuleCompiler.ListConditionRaises | RuleCompiler.MeaningOfCorrectedMeans |
