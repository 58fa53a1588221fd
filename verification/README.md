# routeD, verified

routeD is a policy-driven router for model requests. Four kinds of Kubernetes objects
(model tiers, data classes, routing policies, router profiles) are compiled into one hashed
snapshot; an operator admits the objects, distributes the snapshot to routers and reports
status; a router decides ROUTE, PASS_THROUGH or BLOCK per request and rewrites the request.
This project models that behaviour in Dafny and proves properties of it. It stands alone:
`dafny verify dfyconfig.toml` checks everything.

## How it is laid out

| files | what they model |
|---|---|
| `Ordering`, `Snapshots` | byte order of names, stable sorting, folds; the compiled snapshot, cost and weight arithmetic, the hot-swap holder |
| `SnapshotNumbers`, `TextForms` | what cost, rounding, weights, case, trimming and order of text amount to, in numbers and characters |
| `Engine`, `EngineState` | the decision engine as functions, and the pipeline that builds a decision in place, proved equal |
| `EngineFacts`, `EngineSafety`, `EngineSelection`, `EngineExplain`, `EngineHints`, `EngineUnblocking` | the theorems about decisions |
| `EnginePatterns`, `EngineClasses`, `EngineScores`, `EngineDecisions` | what policy patterns, class hints, floor, scores and finally whole decisions amount to, without the engine's own functions |
| `Compiler`, `CompilerPasses` | the compiler as folds, and as loops that fill containers and the report, proved equal |
| `ScopeText`, `CompilerShadows` | the text policies are grouped by, the groups and the warnings about them |
| `CompilerFacts`, `CompilerReferences`, `CompilerContexts` | what each pass accepts and produces; success if and only if well formed |
| `CompilerOrder`, `CompilerEveryOrder`, `CompilerStages` | when input order matters; attribution of diagnostics |
| `CompilerValues`, `ReportedObjects`, `ReportedReferences` | field by field what a compiled snapshot holds, and diagnostic by diagnostic what the report says |
| `CompiledSnapshots`, `CompilerDiagnostics` | from compile to decide: the engine's theorems on every compiled snapshot, and warnings measured against the engine |
| `Admission`, `AdmissionUpdates` | the validating webhook: new objects, and exactly which admitted updates keep the set compiling |
| `Distribution`, `DistributionOffers` | reconcile loop, gRPC stream, router sources, ConfigMap fallback, as imperative steps and as one step system; what is offered after any turns |
| `StatusLoop`, `StatusWrites` | status writes with merge patches, and the loop they trigger; what is written, in the words that are written |
| `ArtifactCache`, `ArtifactOutcomes` | digest-pinned artifact resolution over arbitrary histories; what one resolve comes to |
| `Ingress`, `BodyRewrite` | path normalisation, inline dispatch, the ext_proc stream, the body rewrite |
| `IngressPaths`, `BodyEdits` | which paths are rejected, what is forwarded and answered, and what a rewritten body holds, in literal text |
| `CheckDigits`, `CheckDigitExchanges`, `CheckDigitLaws` | the check-digit algorithms of PII detection, the errors they catch, and their standards' own formulas |
| `Calendar`, `CalendarCounts` | the timestamp of feedback records; the calendar in closed form and the text digit by digit |

Each theorem is stated against something independent of the code it is about: a
constraint-by-constraint reading of "hard constraint", a declarative "well formed", the
history of a run, the number an IBAN expands to, the day number of a date. The functions at
the leaves (pattern matching, normalisation, costs, price conversion, the words that are
written) are fixed by statements in raw arithmetic and literal text that name none of them,
and these are carried up to whole decisions, snapshots, reports and bodies. Where the code
works by changing things step by step, methods over fields and loops do the same, and their
contracts tie them to the functions the theorems are about.

## Conventions

- `f64` is an exact real. Numbers read from resources or from the learned predictor may also
  be `NotFinite` (NaN or infinite). `round6` is the exact rounding to six decimals.
- `u64` is a bounded integer; saturation and the 128-bit sum in the cost estimate are explicit.
  A sum past 2^128 wraps, as in a release build.
- The learned predictor, classifier findings, the digest function, JSON reading and writing,
  write times, network answers, failures and leadership are arbitrary inputs. Nothing assumes
  the digest is injective: where a collision could matter the theorem exhibits the pair.
- Reasons, notes and diagnostics are data instead of text.

## Where documentation and code differ

The model follows the code.

- `docs/adr/0007-header-trust-model.md:38-41` says a header can never make routing looser. A
  data-class hint can, when a tier serves a class but not one ranked lower
  (`EngineHints.HintCanUnlock`); `EngineHints.HintsOnlyRestrictExactly` gives the exact condition,
  and `EngineUnblocking.HintsNeverUnblockExactly` the one under which at least a BLOCK stays.
- `docs/adr/0008-single-source-compiler-and-snapshot-hash.md:19-21` says input order never
  changes the output. With exchange rates of one currency that differ by no more than EPSILON it
  can (`CompilerOrder.CloseRatesDependOnOrder`); with equal or clearly different rates it does not,
  and `CompilerEveryOrder.SameInEveryOrderExactly` gives the exact condition.
- The same record says routers verify the hash on receipt; the gRPC source compares hashes but
  does not recompute them, so the model does not either.
- `docs/adr/0014-operator-reconciliation-and-distribution.md` says both distribution paths always
  agree. The ConfigMap is only guaranteed fresh with one publishing replica, because the published
  hash is remembered per process (`Distribution.TwoPublishersGoStale`). A polled file is missed if
  the one poll that sees its new modification time cannot read it
  (`Distribution.FailedReadIsNotRetried`) or if it changes between the startup read and the
  poller's first look; `Distribution.PolledFileIsServedExactly` gives the exact condition. A chunk
  that does not parse is not asked for again on its stream (`Distribution.SkippedChunkIsNotRetried`);
  `Distribution.QuietAgreesExactly` says exactly when router and operator agree all the same.
- The webhook looks only at errors that name the incoming object
  (`cmd/routed-operator/src/webhook.rs:151-174`), so an admitted update can still break an object
  listed after it or referring to it (`Admission.AdmittedUpdateCanBreakAPolicy`);
  `AdmissionUpdates.UpdateAdmissionExactly` says exactly when it does not.
- `docs/adr/0016-artifact-resolution-and-onnx-contract.md` says `oci://` is rejected; the code
  supports it, and so does the model.

## Model

| member | source | states |
|---|---|---|
| Snapshots.CostIsMonotoneExactly | crates/snapshot/src/lib.rs:176-181 | The estimated cost (128-bit sum, rounded up, saturated) never falls when token counts rise if and only if the tier's two prices add up to at most 2^64 + 1, the bound under which the 128-bit sum cannot wrap. |
| Snapshots.CostMonotone | crates/snapshot/src/lib.rs:176-181 | Under that bound more tokens never cost less. |
| Snapshots.UnsafePricesDropTheCost | crates/snapshot/src/lib.rs:176-181 | Past the bound there is a request charged the maximum whose successor, with one more output token, is charged less. |
| Snapshots.NormalisedIsConvex | crates/snapshot/src/lib.rs:251-261 | Non-negative weights normalise to non-negative weights that sum to one, including the all-zero fallback to the mode's weights. |
| Snapshots.Round6Monotone | crates/decision/src/lib.rs:462-464 | Rounding to six decimals, halves away from zero, keeps the order. |
| Snapshots.SnapshotHolder.Store | crates/snapshot/src/lib.rs:400-406 | Storing makes the new snapshot current and keeps the replaced one as previous. |
| Snapshots.SnapshotHolder.Revert | crates/snapshot/src/lib.rs:418-427 | Reverting restores the previous generation once, reports whether it did, and never takes readiness away. |
| Snapshots.SnapshotHolder.StoreThenRevert | crates/snapshot/src/lib.rs:400-427 | Store followed by revert is the identity on the served snapshot of a ready holder. |
| SnapshotNumbers.CostIsCeiling | crates/snapshot/src/lib.rs:176-181 | From the tier's fields: the token sum is input count times input price plus output count times output price, taken modulo 2^128; a million times the cost is at least that sum, unless the cost stands at the largest 64-bit number, and a million times one less is below it. |
| SnapshotNumbers.ChargeIsUnique | crates/snapshot/src/lib.rs:176-181 | No other amount satisfies that, so it says what the estimate is. |
| SnapshotNumbers.MillionTokensCostThePrice | crates/snapshot/src/lib.rs:176-181 | A million input tokens cost exactly the input price and a million output tokens exactly the output price. |
| SnapshotNumbers.CapExceededExactly | crates/snapshot/src/lib.rs:176-181 | The estimate exceeds a cap if and only if the token sum exceeds a million times the cap, below saturation. |
| SnapshotNumbers.Round6IsNearest | crates/decision/src/lib.rs:462-464 | A rounded value is a whole number of millionths at most half a millionth away, halves away from zero. |
| SnapshotNumbers.SixDecimalsAreUnique | crates/decision/src/lib.rs:462-464 | There is one such value. |
| SnapshotNumbers.NormalisedExactly | crates/snapshot/src/lib.rs:251-261 | Weights with a positive sum normalise to weights in the declared proportions that sum to one, and others to the mode's defaults. |
| SnapshotNumbers.ModeDefaults | crates/snapshot/src/lib.rs:224-247 | The defaults of each mode, as numbers. |
| EngineState.Decide | crates/decision/src/lib.rs:83-222 | The imperative pipeline over the explanation's fields computes exactly the decision function the theorems are about, for every predictor. |
| EngineState.Decision.SelectPolicy | crates/decision/src/lib.rs:503-524 | Policy selection with its hint notes, in place. |
| EngineState.Decision.ResolveDataClass | crates/decision/src/lib.rs:526-574 | The loop over headers and inferred classes with its running best resolves the class the specification resolves. |
| EngineState.Decision.FallbackOrBlock | crates/decision/src/lib.rs:233-308 | The fallback step changes the explanation exactly as specified on each of its four paths. |
| EngineState.Decision.ApplyFloor | crates/decision/src/lib.rs:351-388 | The quality-floor loops keep and drop exactly the tiers the floor keeps and drops, and record the drops. |
| EngineState.Decision.ScoreAndSelect | crates/decision/src/lib.rs:326-443 | Scoring, ranking, listing and selection change the explanation exactly as specified. |
| EngineState.Decision.Judge | crates/decision/src/lib.rs:128-222 | Steps 4 to 6, from risk denial to the verdict, in place. |
| EngineState.MostExpensive | crates/decision/src/lib.rs:419-428 | The loop returns the highest cost among the ranked tiers. |
| EngineFacts.RequestFactViolationIsFirst | crates/decision/src/lib.rs:579-619 | The reported request-fact violation is broken and nothing earlier in the fixed order is; none is reported only if none is broken (against a constraint-by-constraint statement). |
| EngineFacts.HardConstraintViolationIsFirst | crates/decision/src/lib.rs:654-701 | The same for the full list of hard constraints. |
| EngineFacts.CostCapComesLast | crates/decision/src/lib.rs:579-701 | The two constraint functions agree on everything but the cost cap, which comes last. |
| EngineFacts.SurvivorsSound | crates/decision/src/lib.rs:177-195 | The survivors are exactly the candidates present in the snapshot without a violation. |
| EngineFacts.FloorKeepsSomething | crates/decision/src/lib.rs:351-388 | The quality floor never empties a non-empty list of survivors. |
| EngineFacts.FloorIsUpwardClosed | crates/decision/src/lib.rs:351-388 | Whatever is at least as good as a tier that passes the floor passes it too, in both branches. |
| EngineFacts.RankingSound | crates/decision/src/lib.rs:389-418 | The ranking is a sorted permutation of the kept tiers with their scores. |
| EngineFacts.ScoringSelects | crates/decision/src/lib.rs:212-222 | A request that reaches scoring is routed to the first tier of the ranking and keeps its notes. |
| EngineSafety.JudgeOutcome | crates/decision/src/lib.rs:128-308 | A routed request is blocked exactly when a stated condition holds, and routed otherwise. |
| EngineSafety.RouteIsSound | crates/decision/src/lib.rs:83-308 | For every snapshot, request, findings and predictor, a ROUTE respects the denial threshold and: a scored tier is a candidate meeting every hard constraint; a degraded fallback meets data class and request facts; any other fallback meets every hard constraint and is not a candidate. |
| EngineSafety.RelaxationNoteIsUnreachable | crates/decision/src/lib.rs:273-292 | On a well-keyed snapshot the note that an eliminated fallback was relaxed never appears. |
| EngineSafety.SkippingIsExact | crates/decision/src/lib.rs:721-740 | `is_routed` holds if and only if the decision is not PASS_THROUGH, whatever the findings. |
| EngineSafety.PassThroughIgnoresFindings | crates/ingress-inline/src/handlers.rs:246-261 | For a request that is not routed the decision does not depend on findings beyond the copied degraded list, so classification can be skipped. |
| EngineSafety.PressureShrinksSurvivors | crates/decision/src/lib.rs:177-195 | Raising the risk or a token estimate, or turning tools on, only shrinks the set of tiers without a hard-constraint violation, if every tier has prices under which the cost cannot wrap or a context window below 2^64 - 1. |
| EngineSafety.PressureNeverUnblocks | crates/decision/src/lib.rs:128-308 | Over such tiers more pressure never turns a BLOCK into another outcome, across both fallback modes. |
| EngineSafety.UnsafePricesUnblock | crates/snapshot/src/lib.rs:176-181 | Over tiers of which one breaks the condition, whatever its risk limit and whatever the others, some policy has a request blocked that it routes to that tier with one more output token. |
| EngineSafety.PressureNeverUnblocksExactly | crates/decision/src/lib.rs:128-308 | For every set of tiers: under no policy, request and findings does more pressure turn a BLOCK into something else if and only if each tier meets the condition on prices or window. |
| EngineSelection.ScoreMonotone | crates/decision/src/lib.rs:389-408 | Better or equal in cost, quality and latency never scores lower, through min-max normalisation and rounding. |
| EngineSelection.SelectionUndominated | crates/decision/src/lib.rs:351-418 | For non-negative weights no hard-constraint survivor, kept by the floor or not, is strictly cheaper than the selected tier while at least as good and no slower. |
| EngineExplain.ExplanationIsComplete | crates/decision/src/lib.rs:177-195 | A scored decision lists each candidate exactly once in name order, each with the one line it is owed, and marks exactly the selected one. |
| EngineExplain.ScoreIsProportion | crates/decision/src/lib.rs:389-408 | With convex weights every score lies in 0..=1. |
| EngineExplain.SavingsAreExact | crates/decision/src/lib.rs:419-441 | Savings are the dearest ranked cost minus the selected cost, never negative. |
| EngineHints.ResolvedIsMaximal | crates/decision/src/lib.rs:526-574 | The resolved class is one of the considered classes and of maximal rank, and there is none only if nothing is considered. |
| EngineHints.FewerHintsNeverRaiseTheRank | crates/decision/tests/props.rs:444-461 | Dropping data-class hints never raises the resolved rank. |
| EngineHints.HeaderOrderIsIrrelevant | crates/decision/src/lib.rs:526-574 | With distinct ranks the resolved class depends on which headers are present, not on their order or number. |
| EngineHints.HintsOnlyRestrictExactly | docs/adr/0007-header-trust-model.md:32-41 | Data-class hints can only shrink the survivors, for all requests, findings and dropped hints, if and only if every candidate that could be routed to serves, with a class, all classes ranked no higher. |
| EngineUnblocking.BlocksByLoad | crates/decision/src/lib.rs:128-308 | A routed request is blocked if and only if it is denied, or degraded and the fallback tier does not take it, or no tier the policy can route to takes it, in terms of tokens, tools, risk and class alone. |
| EngineUnblocking.HintsNeverUnblockExactly | docs/adr/0007-header-trust-model.md:32-41 | No data-class hint, for any request and findings, turns a BLOCK of a policy into something else if and only if the fallback tier serves, with a class, all classes ranked no higher, and under every load a class can be routed whenever one ranked at least as high can. |
| EngineUnblocking.RestrictiveRoutesDownward | docs/adr/0007-header-trust-model.md:32-35 | Tiers that serve, with a class, all classes ranked no higher meet the routing half of that condition. |
| EngineUnblocking.HintsPreserveBlock | crates/decision/tests/props.rs:444-461 | If the condition holds of the selected policy, a request blocked without some of its data-class hints is blocked with them. |
| EngineHints.HintCanUnlock | docs/adr/0007-header-trust-model.md:38-41 | A concrete snapshot in which a hint makes a tier survive that was eliminated without it. |
| EngineHints.TighteningConstraintsRestrict | docs/adr/0007-header-trust-model.md:32-35 | Constraints and allow-lists that are monotone in rank satisfy the condition. |
| EngineHints.PolicyHintIsRestricted | crates/decision/src/lib.rs:503-524 | A policy hint only moves the selection to a matching policy it names that is overridable or is the winner. |
| TextForms.LowerExactly | crates/decision/src/lib.rs:540-549 | A text is the lower-case form exactly if it has the capital letters A to Z moved by 32 and all else as it was. |
| TextForms.TrimExactly | crates/decision/src/lib.rs:541 | A text is the trimmed form exactly if it has no white space at its ends and is what is left between white space. |
| TextForms.StrLeExactly | crates/decision/src/lib.rs:409-415 | Names are ordered by being a prefix or smaller in the first character that differs. |
| EnginePatterns.PrefixPattern | crates/decision/src/lib.rs:475-480 | A pattern of a text and a trailing star matches exactly the values that begin with the text. |
| EnginePatterns.SuffixPattern | crates/decision/src/lib.rs:481-483 | A pattern of a leading star and a text that does not end in a star matches exactly the values that end with the text. |
| EnginePatterns.PlainPattern | crates/decision/src/lib.rs:484-485 | A pattern without a star at either end matches only itself. |
| EnginePatterns.GlobMatchExactly | crates/decision/src/lib.rs:474-485 | The three cases together, for every pattern and value, by concatenation. |
| EnginePatterns.SelectionExactly | crates/decision/src/lib.rs:93-101 | The selected policy is the one that applies, told from the patterns as text: the hinted one if it may be, else the first in evaluation order whose tenant, agent and path patterns cover the request. |
| EnginePatterns.HintNoteExactly | crates/decision/src/lib.rs:510-523 | A policy hint is noted exactly if it is not followed, as not overridable or as not matching. |
| EnginePatterns.PassThroughExactly | crates/decision/src/lib.rs:93-120 | On aliases and requested model as text: the decision is PASS_THROUGH exactly if no policy applies or the one that does has no alias covering the model, and it names the policy and which of the two it was. |
| EngineClasses.ClaimsHeaderExactly | crates/decision/src/lib.rs:540-549 | A class answers to a header exactly if the header, trimmed, is its name in any case or lower-cases to one of its header values. |
| EngineClasses.PiiHitExactly | crates/decision/src/lib.rs:562-572 | Found entities suggest a class exactly if one of them is the class's and has at least its confidence less a billionth, counting as certain where none is given. |
| EngineClasses.ResolvedExactly | crates/decision/src/lib.rs:526-574 | Of the classes suggested by headers, by the inferred label and by entities, the resolved one has the highest rank and was suggested first among those; there is none only if none is suggested. |
| EngineClasses.HeaderNotesExactly | crates/decision/src/lib.rs:550-554 | A header is noted exactly if no class answers to it. |
| EngineScores.PredictedQualityExactly | crates/decision/src/lib.rs:310-324 | The quality is the learned prediction cut to 0..=1 exactly if the learned router is on, predicts, is confident enough and gives a finite number; else the prior of the task, or the baseline. |
| EngineScores.PassesFloorExactly | crates/decision/src/lib.rs:351-388 | A tier stays exactly if there is no floor, or it reaches the floor less a billionth, or no tier does and its quality is within a trillionth of the best. |
| EngineScores.NormIsShare | crates/decision/src/lib.rs:452-458 | The normalised value times the width of the range is the distance from its lower end; the ends are at 0 and 1, and a range of one point counts as 0. |
| EngineScores.ScoreExactly | crates/decision/src/lib.rs:395-408 | The score is the nearest six-decimal number to the weighted sum of the shares: cost and latency from above, quality from below, each share defined by the range of the kept tiers. |
| EngineScores.ScoreIsUnique | crates/decision/src/lib.rs:395-408 | One number satisfies that. |
| EngineScores.ScoreIsRelative | crates/decision/src/lib.rs:446-460 | Scores do not change when all costs, or all latencies, are scaled and shifted. |
| EngineScores.MeetsExactly | crates/decision/src/lib.rs:654-701 | A candidate survives exactly if it meets every hard constraint, each read from the fields of tier, policy, class and request. |
| EngineDecisions.SelectionIsBest | crates/decision/src/lib.rs:326-443 | A scored ROUTE names a tier with the highest score among the tiers that meet every constraint and stay above the floor, at equal scores the cheapest, then the first by name, with its model, its cost and the savings against the dearest. |
| EngineDecisions.LinesAreExact | crates/decision/src/lib.rs:326-443 | Every line of a scored decision is what the tier was assessed at, compared by or eliminated for, in the numbers above. |
| EngineDecisions.DecisionCarries | crates/decision/src/lib.rs:83-126 | Request, snapshot hash and dry-run mark are quoted as they are; the data class is the resolved one. |
| EngineDecisions.NotesAreExact | crates/decision/src/lib.rs:83-126 | The notes are the one about the policy hint and those about headers, and no others. |
| EngineDecisions.DegradedIsExact | crates/decision/src/lib.rs:150-210 | The degraded list is the findings' one with a missing risk score added exactly when it is needed; a decision is a fallback exactly if it is not denied and something is degraded or nobody meets the constraints. |
| EngineDecisions.ReasoningIsExact | crates/decision/src/lib.rs:703-717 | A route carries the reasoning level of the request's complexity exactly if the policy budgets reasoning and maps it. |
| EngineDecisions.ReasonIsExact | crates/decision/src/lib.rs:83-308 | The reason of every decision about a routed request, told from threshold, degradation, fallback tier and floor. |
| EngineDecisions.UnscoredIsReported | crates/decision/src/lib.rs:128-308 | What a denied, blocked or fallback decision lists: every candidate as denied, the fallback tier at its numbers, and who was eliminated for what. |
| CompilerPasses.Compile | crates/policy/src/lib.rs:175-820 | The compiler as a sequence of loops that fill containers and the report equals the compiler as folds. |
| CompilerPasses.Compilation.FxPass | crates/policy/src/lib.rs:178-206 | The exchange-rate loops fill the table and the report as the fold does. |
| CompilerPasses.Compilation.ProfilePass | crates/policy/src/lib.rs:208-304 | The profile loop. |
| CompilerPasses.Compilation.ClassPass | crates/policy/src/lib.rs:306-386 | The data-class loop with its rank and header-owner tables. |
| CompilerPasses.Compilation.TierPass | crates/policy/src/lib.rs:388-534 | The tier loop with its checks and claim warnings. |
| CompilerPasses.Compilation.PolicyPass | crates/policy/src/lib.rs:536-779 | The policy loop with candidate resolution and checks. |
| CompilerPasses.Compilation.WarnShadowed | crates/policy/src/lib.rs:781-806 | The loops that group the sorted policies and go through the groups in key order report the shadow warnings in the order the specification gives. |
| CompilerShadows.GroupsAreExact | crates/policy/src/lib.rs:783-792 | The groups are in ascending order of priority, namespace and match text, and each has exactly the policies with its key, in evaluation order. |
| ScopeText.MatchTextIsInjective | crates/policy/src/lib.rs:785-790 | Two matches have the same JSON text, with strings escaped as the serialiser escapes them, if and only if they are equal, so grouping by text is grouping by match. |
| CompilerShadows.OneMoreShadowed | crates/policy/src/lib.rs:793-805 | One more policy adds exactly one warning if one before it has the same priority, namespace and match, naming the first such, and none otherwise. |
| CompilerFacts.FxPassSound | crates/policy/src/lib.rs:178-206 | The rate pass reports an error if and only if some declared rate is invalid or further than EPSILON from the rate declared for its currency before it, and otherwise the table gives every currency the rate declared last. |
| CompilerFacts.ProfilePassSound | crates/policy/src/lib.rs:208-304 | Errors exactly when the profiles are ill-formed; otherwise the container holds exactly the compiled profiles. |
| CompilerFacts.ClassPassSound | crates/policy/src/lib.rs:306-386 | Errors exactly when names repeat, a confidence is out of range or two classes claim a header value; otherwise the container and the owner table are exact. |
| CompilerReferences.TierPassSound | crates/policy/src/lib.rs:388-534 | Errors exactly when a tier is invalid or its references and rates do not resolve; otherwise the containers are exact. |
| CompilerReferences.PolicyPassSound | crates/policy/src/lib.rs:536-779 | Errors exactly when a policy is invalid in its context; otherwise the compiled policies are exact. |
| CompilerReferences.CompileIsExact | crates/policy/src/lib.rs:175-820 | Compilation succeeds if and only if the input is well formed, and the snapshot is then exactly what the input declares, prices converted at the rates declared last and policies in evaluation order. |
| CompilerContexts.CompileIsDeclarative | crates/policy/src/lib.rs:175-820 | The same without the passes: an input compiles to a snapshot if and only if some context quotes the declared rates and holds the compiled objects, the input is well formed in it, and the snapshot realises it. |
| CompilerOrder.InputOrderIsIrrelevant | docs/adr/0008-single-source-compiler-and-snapshot-hash.md:19-21 | If equal currencies have rates that are equal or differ by more than EPSILON, any permutation of the four input lists compiles alike and to the same snapshot. |
| CompilerOrder.CloseRatesDependOnOrder | crates/policy/src/lib.rs:192-204 | Three profiles with rates around one, neighbours within EPSILON, compile in one order and conflict in another. |
| CompilerEveryOrder.AlwaysConsistentExactly | crates/policy/src/lib.rs:178-206 | No order of the profiles has a rate error if and only if all declared rates are valid and any two for one currency are within EPSILON of each other. |
| CompilerEveryOrder.EveryOrderCompilesExactly | docs/adr/0008-single-source-compiler-and-snapshot-hash.md:19-21 | An input compiles in every order of its objects if and only if it compiles in one and its rates are pairwise near. |
| CompilerEveryOrder.SameInEveryOrderExactly | docs/adr/0008-single-source-compiler-and-snapshot-hash.md:19-21 | The snapshot of an input that compiles is the same in every order if and only if its rates are pairwise near and every dollar price comes out the same under each declared dollar rate. |
| CompilerEveryOrder.TableOrderExactly | crates/policy/src/lib.rs:192-204 | For pairwise near rates, the rate table is the same in every order if and only if all rates of a currency agree. |
| CompilerStages.ErrorsNameObjects | crates/policy/src/lib.rs:104-123 | Every error of a compilation names one of the objects it was given, of the right kind. |
| CompiledSnapshots.CompiledIsSound | crates/policy/src/lib.rs:559-619 | Every compiled snapshot is keyed by name, has unambiguous header values, resolvable ascending candidates, convex weights, existing fallbacks and distinct policy keys. |
| CompiledSnapshots.CompiledRouteIsExplained | crates/policy/src/lib.rs:654-676 | From compile to decide: on every compiled snapshot a ROUTE that is not a fallback lists each candidate once in name order with the line it is owed, exactly one selected line whose cost is the decision's, scores in 0..=1, and savings equal to the dearest scored line minus that cost. |
| CompiledSnapshots.CompiledSelectionIsUndominated | crates/decision/src/lib.rs:351-418 | On every compiled snapshot the selected tier is undominated, with no hypothesis on the weights. |
| CompiledSnapshots.CompiledNeverRelaxes | crates/decision/src/lib.rs:273-292 | On every compiled snapshot the relaxation note is unreachable. |
| CompiledSnapshots.CompiledHintsOnlyRestrict | docs/adr/0007-header-trust-model.md:32-41 | On every compiled snapshot whose class names carry no surrounding white space, hints only restrict exactly under the stated condition. |
| CompilerDiagnostics.ClassChecksAgree | crates/policy/src/lib.rs:825-849 | The compiler's and the engine's data-class checks agree, down to the reason. |
| CompilerDiagnostics.ShadowReportIsExact | crates/policy/src/lib.rs:781-806 | A shadow warning is reported if and only if the policy comes after another with the same priority, namespace and match, and it names the first such policy. |
| CompilerDiagnostics.ShadowedIsNeverSelected | crates/policy/src/lib.rs:781-806 | A policy reported as shadowed is never selected for a request without a policy hint. |
| CompilerDiagnostics.FallbackReportIsExact | crates/policy/src/lib.rs:709-729 | The fallback warnings of a successful compilation are exactly those for classes the fallback tier cannot serve. |
| CompilerDiagnostics.FallbackWarningIsExact | crates/policy/src/lib.rs:709-729 | A policy is warned about a class if and only if every degraded request of that class judged under it is blocked for a data-class reason, risk denial aside. |
| CompilerDiagnostics.UnwarnedNeverBlocksByClass | crates/policy/src/lib.rs:709-729 | A policy without fallback warnings never blocks a degraded request for a data-class reason. |
| CompilerValues.CompiledIsDeclared | crates/policy/src/lib.rs:175-820 | Field by field, without naming the compiler's functions: tiers, classes, profiles and policies of a compiled snapshot are those of the resources; each price is within half a micro-EUR of the declared one times a million times the rate, saturated, the rate being 1 for EUR and the last one declared for USD; header values are lower case, weights in proportion, candidates resolved, policies in evaluation order. |
| CompilerValues.ConvertedPrice | crates/policy/src/lib.rs:157-170 | The same of one price. |
| ReportedObjects.RateReportIsExact | crates/policy/src/lib.rs:178-206 | A diagnostic about rates is in the report if and only if a declared rate is no positive number, or is further than EPSILON from the one last taken. |
| ReportedObjects.ProfileReportIsExact | crates/policy/src/lib.rs:208-304 | Every diagnostic about a profile, rule by rule, if and only if the rule is broken. |
| ReportedObjects.ClassReportIsExact | crates/policy/src/lib.rs:306-386 | Every diagnostic about a data class: confidence out of range, rank shared with the last class that has it, header value claimed by another. |
| ReportedReferences.TierReportIsExact | crates/policy/src/lib.rs:388-534 | Every diagnostic about a tier: its own rules, references, missing rates, and the claims it cannot serve with the first clash. |
| ReportedReferences.PolicyReportIsExact | crates/policy/src/lib.rs:536-789 | Every diagnostic about a policy, errors and warnings, in terms of the objects compiled before it. |
| ReportedReferences.ContextIsExact | crates/policy/src/lib.rs:388-534 | What those objects are, told from the resources: a name is held by the first sound tier that has it. |
| ReportedReferences.ReportIsExact | crates/policy/src/lib.rs:175-820 | So a diagnostic other than a shadow warning is in the report of a compilation if and only if the input calls for it. |
| ReportedReferences.SucceedsExactly | crates/policy/src/lib.rs:808-820 | Compilation succeeds if and only if the input calls for no error. |
| Admission.PutInPlace | cmd/routed-operator/src/webhook.rs:113-132 | Replacing the object with the same key, or appending, in place. |
| Admission.CreateAdmissionIsExact | cmd/routed-operator/src/webhook.rs:108-174 | When the listed objects compile, an object with a new key is admitted if and only if the extended set compiles. |
| Admission.AdmittedUpdateCanBreakAPolicy | cmd/routed-operator/src/webhook.rs:151-174 | For updates this fails: taking the labels off a tier is admitted although the policy that selects it by label then no longer compiles. |
| AdmissionUpdates.UpdateAdmissionExactly | cmd/routed-operator/src/webhook.rs:108-174 | When the listed objects compile, the updated set compiles if and only if the update is admitted and: for a tier, every policy still selects some tier; for a data class, no class listed later shares a claimed header value; for a profile, the rates listed later still follow and dollar tiers still have a rate; for a policy, always. |
| AdmissionUpdates.NewOrUpdate | cmd/routed-operator/src/webhook.rs:113-132 | For named objects in namespaces without a slash, an incoming object is either new or an update, so the two theorems cover every case. |
| AdmissionUpdates.CandidatesAreSelected | crates/policy/src/lib.rs:560-606 | A policy's candidates are exactly the tiers of its namespace that it includes or selects by label and does not exclude. |
| Distribution.Operator.Reconcile | cmd/routed-operator/src/main.rs:196-262 | One turn of the reconcile loop updates sent hash, channel, readiness, published hash and ConfigMap exactly as specified. |
| Distribution.Operator.Run | cmd/routed-operator/src/main.rs:177-275 | The loop over any number of turns. |
| Distribution.GrpcSource.Receive | cmd/routed/src/snapshot_source.rs:180-188 | A received snapshot is stored exactly if its hash differs from the served one. |
| Distribution.GrpcSource.WatchOnce | cmd/routed/src/snapshot_source.rs:163-194 | A whole stream of chunks: those that parse are taken in turn, the others are skipped. |
| Distribution.CompiledFileSource.Poll | cmd/routed/src/snapshot_source.rs:111-139 | One poll of the compiled snapshot file; a failed read keeps what is served. |
| Distribution.PolledFileIsServedExactly | cmd/routed/src/snapshot_source.rs:111-139 | Whatever each poll finds, the router serves a snapshot if and only if it is what was loaded last, where a poll loads what it can read if the time differs from the poll before or nothing could be read so far. |
| Distribution.FailedReadIsNotRetried | cmd/routed/src/snapshot_source.rs:119-137 | If the poll that sees a new time cannot read the file, however many later polls at that time could, the old snapshot is still served. |
| Distribution.SteadyFileIsServedExactly | cmd/routed/src/snapshot_source.rs:111-139 | When what a read gives depends on the modification time alone, the file is served if and only if it is not the case that it changed between the startup read and the poller's first look and never since. |
| Distribution.StepKeepsInv | cmd/routed-operator/src/grpc.rs:31-41 | Every step of operator, stream and router keeps the system invariant, moves the router only forward in the send history and takes no readiness away. |
| Distribution.ServedIsSound | cmd/routed-operator/src/main.rs:203-220 | In every run the router serves only snapshots that a listing of the run compiled, hence ones on which the engine's theorems hold. |
| Distribution.NeverGoesBack | cmd/routed/src/snapshot_source.rs:154-194 | Between any two moments of a run, across disconnects, the router's place in the send history does not go back and readiness is not lost. |
| Distribution.ConsecutiveSendsDiffer | cmd/routed-operator/src/main.rs:203-220 | Consecutive sends differ in hash. |
| Distribution.AgreesExactly | cmd/routed/src/snapshot_source.rs:163-194 | At any moment of any run in which something was sent, the router's hash is the operator's sent hash, and the snapshots are equal unless these two cores collide, if and only if the chunk that the events show to be parsed last bore the hash of the last send. |
| Distribution.QuietAgreesExactly | cmd/routed/src/snapshot_source.rs:163-194 | When stream and compiles are quiet, router and operator agree if and only if the last chunk on the stream was parsed, or the chunk parsed before it already bore the latest hash. |
| Distribution.QuietAgrees | cmd/routed/src/snapshot_source.rs:163-194 | In particular they agree once the run is quiet and the last chunk on the stream was parsed. |
| Distribution.DeliveryProgresses | cmd/routed-operator/src/grpc.rs:31-41 | While the system is not quiet a delivering step is enabled, and each one decreases a distance that is zero exactly when it is quiet. |
| Distribution.Converges | cmd/routed/src/snapshot_source.rs:154-194 | Any sequence of delivering steps is no longer than the distance it started from and keeps the invariant. |
| Distribution.DeliveryConverges | cmd/routed/src/snapshot_source.rs:154-194 | From every state a run can reach, delivering until nothing more can be delivered takes at most the distance many steps; router and operator then agree if and only if that state had not stalled on an unparsable chunk or the chunk parsed last by then bore the latest hash, and a stalled state stays as it is. |
| Distribution.SkippedChunkIsNotRetried | cmd/routed/src/snapshot_source.rs:181-192 | For any two inputs with different hashes a run ends quiet with the router on the first, because the chunk with the second did not parse. |
| Distribution.SkippedRepeatIsHarmless | cmd/routed/src/snapshot_source.rs:165-192 | For any input a run ends stalled and in agreement, because the chunk that did not parse repeated on a new stream what the router had. |
| Distribution.FreshExactly | cmd/routed-operator/src/main.rs:238-262 | A leading turn whose write would succeed leaves the ConfigMap fresh if and only if the replica does not remember publishing this hash or the ConfigMap already holds it. |
| Distribution.SolePublisherStaysFresh | cmd/routed-operator/src/main.rs:196-262 | With one publishing replica the ConfigMap is fresh after every such turn of every run. |
| Distribution.TwoPublishersGoStale | cmd/routed-operator/src/main.rs:196-197 | With two publishing replicas there is a run that leaves a stale ConfigMap, for any two inputs with different hashes. |
| DistributionOffers.OffersAreLatest | cmd/routed-operator/src/main.rs:177-275 | After any turns: the stream holds the snapshot, by hash, of the last turn whose objects were listed, compiled and serialised, the ConfigMap that of the last such turn that led and could write, a replica is ready exactly once it sent anything, and nothing else is there. |
| StatusLoop.ApiServer.Apply | cmd/routed-operator/src/status.rs:125-192 | The four loops over listed objects write exactly the merge patches specified and skip what is settled. |
| StatusLoop.ApiServer.PatchOne | cmd/routed-operator/src/status.rs:91-121 | One status merge patch with null deleting a member (RFC 7396, section 2). |
| StatusLoop.FirstError | cmd/routed-operator/src/status.rs:83-89 | An error message exists exactly if the report holds an error of that kind and name. |
| StatusLoop.ApplyReaches | cmd/routed-operator/src/status.rs:125-192 | After an apply every listed object's stored status is the one it should end with, whichever patches failed. |
| StatusLoop.ApplyLeavesOthers | cmd/routed-operator/src/status.rs:91-121 | An apply leaves the statuses of other objects alone. |
| StatusLoop.OneApplySettles | cmd/routed-operator/src/status.rs:52-80 | One apply whose patches succeed makes every object up to date, also when the compile failed and `compiledHash` must be deleted. |
| StatusLoop.SecondApplyWritesNothing | cmd/routed-operator/src/status.rs:7-11 | The next apply with unchanged specs writes nothing. |
| StatusLoop.LoopIsBounded | cmd/routed-operator/src/status.rs:7-11 | However often the self-triggered loop fires and whichever patches fail, writes made plus stale objects left equals the stale objects at the start. |
| StatusLoop.TransitionTimeIsRunStart | cmd/routed-operator/src/status.rs:66-80 | In every history a stored `lastTransitionTime` is the time of a turn that wrote, before which the Ready value was absent or different and after which it never changed. |
| StatusLoop.NothingStoredNothingWritten | cmd/routed-operator/src/status.rs:91-121 | A status is stored if and only if some turn of the history wrote. |
| StatusLoop.CompiledIffNoObjectFails | cmd/routed-operator/src/status.rs:83-89 | A set compiles if and only if no object in it has an error. |
| StatusLoop.ReadinessIsCompilation | cmd/routed-operator/src/status.rs:125-192 | After an apply went through, all objects are Ready exactly if the set compiled, and then every policy carries the hash of that snapshot. |
| StatusWrites.FirstErrorIsFirst | cmd/routed-operator/src/status.rs:83-89 | The message of an object is the wording of the first error of the report with its kind and name, and there is none only if there is no such error. |
| StatusWrites.SettledExactly | cmd/routed-operator/src/status.rs:52-65 | An object is skipped exactly if its stored status already says True, Compiled and the standing message, or False, CompileError and the first error, at the object's generation and, for a compiled policy, with the hash. |
| StatusWrites.ApplyOneIsExact | cmd/routed-operator/src/status.rs:91-121 | Otherwise one successful write leaves exactly that status, with the transition time kept while the status word is, and every other object untouched. |
| ArtifactCache.Parse | crates/artifact/src/lib.rs:100-135 | A reference is accepted only with a known scheme, and, unless it is a local file, only as a location followed by 64 hexadecimal characters, which become the digest in lower case. |
| ArtifactCache.ParseExactly | crates/artifact/src/lib.rs:100-135 | Parsing gives a reference with a digest if and only if the text is that location with a pin that lower-cases to the digest, and one without if and only if it is a local file with no pin in it. |
| ArtifactCache.Resolver.Resolve | crates/artifact/src/lib.rs:205-261 | Resolution step by step (parse, re-verification, fetch, writes) as specified, under every file-system fate. |
| ArtifactCache.Resolver.FetchInto | crates/artifact/src/lib.rs:263-303 | The verified download of a plain file. |
| ArtifactCache.Resolver.FetchOciInto | crates/artifact/src/oci.rs:161-279 | The trust chain from pin to manifest to layer, the signature gate and the write order blob, then layer file. |
| ArtifactCache.HistoryKeepsLayers | crates/artifact/src/oci.rs:270-276 | After any history of resolves, failures, torn layer files and corrupted blobs, a layer file is a prefix of the layer digest named by a manifest that some resolve of the history fetched with the key's digest. |
| ArtifactCache.HitIsPinned | crates/artifact/src/lib.rs:227-247 | A cache hit holds bytes its pin stands for, even beside a torn layer file. |
| ArtifactCache.ResolvedIsPinned | crates/artifact/src/lib.rs:222-260 | After any such history a successful remote resolve leaves, at the returned path, bytes the pin stands for. |
| ArtifactCache.PinIsUnique | crates/artifact/src/oci.rs:1-12 | A pin stands for one sequence of bytes unless two of the byte sequences at hand collide. |
| ArtifactCache.CachesAgree | crates/artifact/src/lib.rs:222-260 | Two caches with arbitrary histories hand out the same bytes for a reference unless the two files or two manifests fetched into the caches collide. |
| ArtifactCache.ResolvedAgainOffline | crates/artifact/src/lib.rs:227-247 | What was resolved once is resolved again without the network and unchanged. |
| ArtifactCache.PathStaysPinned | crates/artifact/src/lib.rs:226-247 | A returned path stays right while its key is only resolved as the same kind of reference and the file is not damaged. |
| ArtifactCache.StaysPinnedExactly | crates/artifact/src/lib.rs:222-260 | After one more resolve a returned path stays right if and only if that resolve does not store the other kind of artifact under its key, or the manifest concerned names its own digest as its layer. |
| ArtifactCache.SharedKeyIsOverwritten | crates/artifact/src/lib.rs:226-260 | Because http(s) and oci share a key space, fetching a manifest by its digest over https replaces the layer stored for it. |
| ArtifactCache.SharedKeyIsOverwrittenByLayer | crates/artifact/src/oci.rs:261-279 | The other way round, fetching a stored file's pin as an oci manifest replaces the file with the layer. |
| ArtifactOutcomes.ParsedExactly | crates/artifact/src/lib.rs:100-135 | In literals: a reference is accepted exactly if it starts with one of the four schemes and is a location, `@sha256:` and 64 hexadecimal characters, or is a local file without a pin. |
| ArtifactOutcomes.RepositoryExactly | crates/artifact/src/oci.rs:31-41 | An OCI location is usable exactly if, behind any `oci://`, it is a registry without a slash, a slash, and a repository. |
| ArtifactOutcomes.FetchOciExactly | crates/artifact/src/oci.rs:161-279 | An OCI fetch yields bytes exactly along the whole chain: a manifest, of which at most two gibibytes are read, with the pin's digest, the pin signed if a trust root is set, a single layer named `sha256:` and a digest, and bytes with that digest; a bad location and a missing signature are reported as such. |
| ArtifactOutcomes.MismatchExactly | crates/artifact/src/oci.rs:170-260 | A digest mismatch is reported exactly for a manifest without the pin's digest or a layer without its own. |
| ArtifactOutcomes.RemoteExactly | crates/artifact/src/lib.rs:205-261 | What a remote reference comes to: the cached path if the file is kept, else what was fetched and as much of it as was written, else an error with its cause and an unchanged cache. |
| ArtifactOutcomes.LocalExactly | crates/artifact/src/lib.rs:208-223 | What a local reference comes to: its path, if it is not pinned or has the pin's digest. |
| ArtifactOutcomes.RejectedExactly | crates/artifact/src/lib.rs:100-135 | Every other text is rejected and changes nothing. |
| Ingress.Normalize | crates/ingress-inline/src/handlers.rs:27-45 | The loop over segments computes the normal form or rejects the path. |
| Ingress.NormalizedSegments | crates/ingress-inline/src/handlers.rs:27-45 | The normal form has the segments of the path. |
| Ingress.NormalizeIsIdempotent | crates/ingress-inline/src/handlers.rs:22-45 | Normalising twice is normalising once. |
| Ingress.Stream.Handle | crates/ingress-extproc/src/lib.rs:80-149 | One message updates the buffer and the decision and is answered as specified. |
| Ingress.Stream.OnRequestBody | crates/ingress-extproc/src/lib.rs:219-299 | A chunk is rejected, buffered or concluded as specified. |
| Ingress.Stream.Loop | crates/ingress-extproc/src/lib.rs:80-149 | The whole stream. |
| Ingress.BufferIsBounded | crates/ingress-extproc/src/lib.rs:224-228 | After any sequence of messages in any order the buffer is within the limit. |
| Ingress.ConcludeAgrees | crates/ingress-extproc/src/lib.rs:229-299 | On a complete body the stream's answer amounts to the inline dispatch, including stripped headers and content length, and keeps exactly the decision of a forwarded request. |
| Ingress.ChunkingIsInvisible | crates/ingress-extproc/src/lib.rs:80-149 | On a routed path, for every split of the body the first settling reply amounts to the inline dispatch of the whole body. |
| Ingress.HeaderOnlyAgrees | crates/ingress-extproc/src/lib.rs:190-208 | A routed request without a body is decided over the empty body as inline would. |
| Ingress.ForwardedDecisionIsKept | crates/ingress-extproc/src/lib.rs:121-135 | After the body the stream holds exactly the decision of a forwarded request, which the response headers carry. |
| Ingress.NothingDecidedWithoutEnd | crates/ingress-extproc/src/lib.rs:229-231 | Without an end-of-stream mark nothing is decided. |
| BodyRewrite.IndexMap.Put | crates/ingress-inline/src/handlers.rs:380-391 | Inserting into the ordered map in place. |
| BodyRewrite.IndexMap.Remove | crates/ingress-inline/src/handlers.rs:403-405 | `shift_remove` in place, keeping the order of the rest. |
| BodyRewrite.EditInPlace | crates/ingress-inline/src/handlers.rs:385-446 | The edits on the ordered map in place are the specified ones. |
| BodyRewrite.RewriteBody | crates/ingress-inline/src/handlers.rs:373-466 | Reading members, editing and emitting the text compute the specified rewrite. |
| BodyRewrite.RepeatedMemberCountsLast | crates/ingress-inline/src/handlers.rs:378-384 | A repeated member of the body counts with its last value. |
| BodyRewrite.RewriteIsMinimal | crates/ingress-inline/src/handlers.rs:373-466 | The decided keys get exactly the decided values, every other key keeps its raw value, surviving keys keep their order and new keys come last. |
| BodyRewrite.RewriteIsIdempotent | crates/ingress-inline/src/handlers.rs:373-466 | Rewriting twice with the same decision is rewriting once; where a reasoning object is printed, on `/v1/responses`, provided that it is read back as printed. |
| BodyRewrite.RewriteTextIsIdempotent | crates/ingress-inline/src/handlers.rs:373-466 | The same for the emitted text, if the reader recovers the members the writer emitted. |
| BodyRewrite.ForwardedModelIsSound | crates/ingress-inline/src/handlers.rs:541-551 | Whenever the engine routes, the rewritten body asks for the gateway model of a tier that satisfies what the route has to satisfy. |
| IngressPaths.RejectedExactly | crates/ingress-inline/src/handlers.rs:27-45 | A path is rejected exactly if it contains %2f, %2e or a backslash, in any case, or has a segment . or .. between slashes. |
| IngressPaths.NormalForm | crates/ingress-inline/src/handlers.rs:27-45 | An accepted path becomes a slash, or its segments with one slash before each, with neither a double nor a trailing one. |
| IngressPaths.PathPartIs | crates/ingress-extproc/src/lib.rs:163-167 | The path is what precedes the first question mark or number sign. |
| IngressPaths.RoutedNamesExactly | crates/ingress-extproc/src/lib.rs:310-316 | The headers to strip are exactly those whose names begin with x-routed-, in any case. |
| IngressPaths.VerdictExactly | crates/ingress-inline/src/handlers.rs:515-552 | Each inline verdict, both ways: too large exactly beyond the limit, a refusal exactly with the pipeline's status, a dry run before any outcome, a block, a body that cannot be rewritten, or a forward. |
| IngressPaths.ForwardedExactly | crates/ingress-inline/src/handlers.rs:515-565 | A forwarded request carries the body unchanged on PASS_THROUGH and as rewritten on ROUTE, and exactly the headers that are not stripped. |
| IngressPaths.NotOursIsLeftAlone | crates/ingress-extproc/src/lib.rs:168-189 | A request that is no POST or on no routed path loses its routed headers, its chunks are let through and nothing is decided for it. |
| IngressPaths.OursIsBuffered | crates/ingress-extproc/src/lib.rs:190-217 | Any other is decided at once if it ends with its headers, and else buffered from nothing. |
| IngressPaths.ResponseCarriesDecision | crates/ingress-extproc/src/lib.rs:120-135 | The response to a forwarded request carries the decision the inline proxy makes of the whole body, and the response to any other carries none. |
| BodyEdits.RewriteIsExact | crates/ingress-inline/src/handlers.rs:373-449 | Without the model's own functions: after the rewrite a chat body holds "low", "medium" or "high" under reasoning_effort as decided and no such key for no reasoning, a response holds its reasoning object with effort so set and every other member kept, the limit stands under the key of the path, the model under model, and every other member is what it was. |
| BodyEdits.WrittenAs | crates/ingress-inline/src/handlers.rs:450-465 | The text is braces around the members, key, colon and raw value, with commas between them. |
| BodyEdits.RewrittenTextIs | crates/ingress-inline/src/handlers.rs:373-466 | The rewritten text is that of the read body, in which a key stands where it first stood with its last value. |
| CheckDigits.CheckIban | crates/security/src/pii.rs:54-74 | The streaming check accepts exactly the texts of 15 to 34 capital letters and digits whose rearranged, expanded number is 1 modulo 97. |
| CheckDigits.StreamedIsRemainder | crates/security/src/pii.rs:60-72 | The streamed remainder equals the expanded number modulo 97 for any length. |
| CheckDigits.IbanCatchesSubstitution | crates/security/src/pii.rs:54-74 | No valid IBAN, with or without white space in it, becomes another by replacing one digit with a digit or one letter with a letter. |
| CheckDigitExchanges.IbanCatchesExchangesExactly | crates/security/src/pii.rs:54-74 | An exchange of two unequal neighbours in a valid IBAN, other than the fourth and fifth character, gives another valid one if and only if they are 1 and B, 2 and M, or 3 and X. |
| CheckDigitExchanges.IbanCatchesExchangesOfAKind | crates/security/src/pii.rs:54-74 | Every exchange of two unequal digits or two unequal letters of a valid IBAN, at any distance, gives an invalid one. |
| CheckDigits.CheckLuhn | crates/security/src/pii.rs:76-95 | The loop from the right accepts exactly the texts with 13 to 19 digits whose weighted sum is a multiple of ten. |
| CheckDigits.LuhnCatchesDigitErrors | crates/security/src/pii.rs:76-95 | Luhn catches every single-digit error. |
| CheckDigits.LuhnCatchesTranspositionsExactly | crates/security/src/pii.rs:76-95 | Luhn catches an exchange of unequal neighbours if and only if they are not 0 and 9. |
| CheckDigits.CheckBsn | crates/security/src/pii.rs:122-143 | The loop accepts exactly the texts with nine digits whose weighted sum, the last digit counting negatively, is a multiple of eleven. |
| CheckDigits.BsnCatchesDigitErrors | crates/security/src/pii.rs:122-143 | The BSN check catches every single-digit error. |
| CheckDigits.BsnCatchesExchanges | crates/security/src/pii.rs:122-143 | The BSN check catches every exchange of two unequal digits, adjacent or not. |
| CheckDigits.CheckTaxId | crates/security/src/pii.rs:97-120 | The loops with digit counts and product decide exactly the shape and check-digit conditions of the tax ID. |
| CheckDigits.CheckShape | crates/security/src/pii.rs:102-109 | The counting loop decides whether some digit is missing and none occurs more than three times. |
| CheckDigits.TaxIdCatchesDigitErrors | crates/security/src/pii.rs:97-120 | The tax-ID recurrence catches every single-digit error. |
| CheckDigitExchanges.TaxIdCatchesExchangesExactly | crates/security/src/pii.rs:97-120 | An exchange of two unequal neighbours among the first ten digits of a valid tax ID gives another valid one if and only if their sums with the product before them end in 5 and 6 and the first digit stays non-zero. |
| CheckDigitExchanges.TaxIdCatchesCheckDigitExchangesExactly | crates/security/src/pii.rs:97-120 | An exchange of the check digit with an unequal digit before it gives another valid tax ID if and only if they are 0 and 1 behind the product 5 and the first ten digits keep their shape. |
| CheckDigitLaws.IbanNumberIs | crates/security/src/pii.rs:54-74 | A text is a valid IBAN exactly if it has 15 to 34 characters and the number of the account, then country and check digits, letters counting from ten, leaves one modulo 97. |
| CheckDigitLaws.PairsTellLuhn | crates/security/src/pii.rs:76-95 | A card number is valid exactly if, in pairs from the right, the cross sums of the doubled left digits and the right digits add up to a multiple of ten. |
| CheckDigitLaws.ElevenTest | crates/security/src/pii.rs:122-143 | A BSN is valid exactly if nine times the first digit down to twice the eighth, less the ninth, is a multiple of eleven. |
| CheckDigitLaws.TaxIdExactly | crates/security/src/pii.rs:97-120 | A tax ID is valid exactly if it has the shape and the last of the products, each told from the one before in sums and doubles, adds up with the check digit to one modulo ten. |
| Calendar.FromDays | crates/feedback/src/lib.rs:208-238 | The year and month loops terminate, never index past December, and end on a valid date with the given day number. |
| Calendar.Rfc3339 | crates/feedback/src/lib.rs:203-242 | The timestamp is the formatted date and time of the second count. |
| Calendar.DayNumbersAreInOrder | crates/feedback/src/lib.rs:208-238 | Day numbers are in calendar order, so each has one date. |
| Calendar.StampsAreInOrder | crates/feedback/src/lib.rs:203-242 | Stamps are in the order of their second counts and equal only for equal counts. |
| Calendar.TextIsInjective | crates/feedback/src/lib.rs:203-242 | Two timestamps are written alike if and only if their second counts are equal, in every year. |
| Calendar.TextSortsChronologically | crates/feedback/src/lib.rs:240-242 | Through the year 9999 timestamps sort as text chronologically. |
| Calendar.TextOrderExactly | crates/feedback/src/lib.rs:203-242 | In every year: the text of the earlier of two timestamps sorts first if and only if its year is at most the later year cut down to as many digits. |
| Calendar.TextOrderEndsAt10000 | crates/feedback/src/lib.rs:208-209 | So every timestamp of the year 9999 sorts behind every one of the year 10000. |
| CalendarCounts.DaysBeforeYearIs | crates/feedback/src/lib.rs:208-219 | The days before a year are 365 for each since 1970, one more for every fourth, less every hundredth, plus every four-hundredth. |
| CalendarCounts.DayNumberIsCount | crates/feedback/src/lib.rs:208-238 | A day number is a closed formula in year, month and day, and a date is valid exactly if its formula is below that of the next month. |
| CalendarCounts.TextSpellsTheSecond | crates/feedback/src/lib.rs:203-242 | Through 9999 the text has twenty characters, digits and separators in their places, and spells the date and time whose formula gives the second count. |

## Left out

- Floating-point rounding, overflow of finite arithmetic to infinity, and NaN inside the engine: reals are exact and the compiler's range checks keep other values out of snapshots.
- Fields that no decision reads: provider, residency, p95 latency, retention, embedder and detector references, display strings, schema and compiler versions.
- Decision ids, latency, telemetry, metrics, logs, traces and the JSONL sink.
- HTTP, gRPC, TLS and Kubernetes client machinery, timeouts and back-off, trigger streams and debouncing: only the state they act on is modelled.
- Leader election: leadership is an arbitrary input of each turn.
- JSON and YAML parsing, canonical JSON, SHA-256 and signature verification: values are already parsed; digest and signature checks are functions. A file that does not parse is a failed read, and a chunk that does not parse is skipped.
- ONNX inference, tokenizers, and the regular expressions of PII, task and injection detection.
- White space is ASCII white space; case folding is ASCII. Names and bodies are sequences of characters.
- The bearer-token exchange of OCI registries: a request is answered or not.
- The check-digit algorithms of the Spanish DNI and the French NIR, which would add easy members.
- CompilerOrder.InputOrderIsIrrelevant: its hypothesis on rates is sufficient, not necessary; `CompilerEveryOrder.SameInEveryOrderExactly` is the exact statement for inputs that compile.
- Admission.CreateAdmissionIsExact: is about one object admitted against the listed set; two objects admitted concurrently, and the webhook's fail-open path when the cluster cannot be read, are not modelled.
- Distribution.QuietAgrees: one operator process and one router process; a restart of either begins a new run.
- Distribution.Operator.Reconcile: does not include the status writes of a leading turn, which are modelled on their own in StatusLoop.
- StatusLoop.OneApplySettles: statuses are assumed not to be changed by others between listing and patching, and listed objects have distinct names.
- ArtifactCache.ResolvedIsPinned: speaks of the moment of return; `ArtifactCache.PathStaysPinned` and `ArtifactCache.StaysPinnedExactly` say how long it stays true. A signature is checked when an artifact is fetched, not on a cache hit, as in the code.
- ArtifactCache.Resolver.Resolve: a cached file that exists but cannot be read, which the code reports as an I/O error, is not modelled; temporary files are, in that they never carry a cache key.
- CheckDigits.CheckIban: takes the text as characters; the source slices bytes, which agrees on the ASCII texts its pattern lets through.
- CheckDigitExchanges.IbanCatchesExchangesExactly: leaves out the fourth and fifth character, which are at opposite ends of the checked number; of two digits or two letters there `CheckDigitExchanges.IbanCatchesExchangesOfAKind` speaks, while for a digit and a letter, which move everything between them, only the remainder itself decides.
- Ingress.ChunkingIsInvisible: decisions are a function of path, headers and body; hop-by-hop headers, which the inline proxy also drops, are not modelled.
- BodyRewrite.RewriteTextIsIdempotent: assumes that the reader recovers the members the writer emitted; the engine itself never sets a token limit, but the rewrite's handling of one is modelled.
