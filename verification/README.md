# Verification models for Sneakoscope

This project models nine algorithmic parts of the `sks` command-line tool in Dafny and
proves what they promise. `dafny verify dfyconfig.toml` checks all of it.

| modules | part of the tool |
|---|---|
| `Lattice`, `AStar`, `AStarCosts`, `AStarBudget`, `Selection` | the decision-lattice planner, its route evaluator, selector and validator |
| `TomlText`, `BridgeConfig`, `BridgeRoundTrip`, `BridgeOwnership`, `BridgeRestore` | managing and unmanaging the marked bridge bindings at the top level of `config.toml` |
| `NeatText`, `ProfileTables`, `TableUpsert`, `ProfileStrip` | upserting tables and stripping legacy profiles in the same file |
| `SqlScanner`, `SqlStatements`, `SqlClassifier`, `SqlScripts`, `SqlQuotes` | SQL comment stripping, the two quote automata, classification, the safety decision, scripts put together, and where stripping ignores quotations |
| `Circuit` | the failure circuit breaker |
| `DiffText`, `DiffTracker`, `DiffRecovery`, `WholeDiff`, `LineRanges` | recovering new-file line numbers from unified diffs, and the range builder |
| `Attestation` | the capture attestation protocol |
| `Tokenizer` | the quote-aware command tokenizer |
| `BridgeArgv`, `BridgeInvocation` | the `sks bridge` argument grammar and its requests |
| `Text`, `Sequences`, `Wrappers` | whitespace and trimming, totals and stable sorting, optional values |

Code that loops or updates state in the tool is a method (or a class with fields) proved
equal to a specification function; the theorems are then about that function.

## What came out

Several promises hold only under a condition. Each is proved with its exact condition.

- **Manage, then unmanage** (`src/cli/install-helpers-codex-lb-config.ts`) gives a file's
  content back exactly when two things hold: `RestoredIff`.
  - The first line that opens a bracket is a *bare* header. The code ends top level at three
    different places: keys are written before the first bare header, markers before the
    first bracket line. A file whose first bracket line is `[a] # b` gets the keys below
    that line and no markers, and unmanaging does not find them:
    `CommentedHeaderBreaksRoundTrip`.
  - No line before it is a marker or binds one of the three keys. A binding of the user's
    own is refused only if its value can be read, and only a non-empty double-quoted value
    can. Any other binding is dropped by managing and not given back by unmanaging:
    `UnreadableBindingsAreLost` says which lines are lost, `LiteralStringIsLost` shows
    `model_provider = 'azure'`.
- **"Idempotent (second run is a no-op)"** (`src/core/auto-review.ts:150`). One run removes
  one table and one selector for each listed name, so a file that repeats a listed header
  needs a further run: `SecondRunIsNoOp`, `RepeatedTableNeedsSecondRun`.
- **`upsertTable`** collapses newlines only when the table is already there, so the second
  application can still change a file: `UpsertIsStableAtOnce`, `RunNeedsSecondUpsert`.
- **The planner's two `complete` flags** are computed differently. They agree on all states
  exactly from a proof-debt weight of 0.0005 on: `CompleteFlagsAgreeEverywhere`.
- **`selected_path_not_min_f`** is raised for correct selections too, namely whenever an
  incomplete path is strictly cheaper: `FlagIffCheaperIncomplete`,
  `FlagIsRaisedForCorrectSelection`.
- **The search budget** costs completeness: `BudgetMissesGoal` is a problem whose goal can be
  reached and that every search misses. Without it, costs are least: `ExhaustionFindsLeastCosts`.
- **The circuit breaker** closes on a success without clearing its window, so one
  authentication failure keeps re-opening it for exactly nine more failures:
  `AuthTripsNineMore`, `AuthIsForgottenAfterNine`.
- **Comment stripping** does not respect quotations, so `select '--'; drop table t` is
  classified as one read-only statement: `StripRespectsQuotes`, `DashesTakeTheRest`,
  `DropIsHidden`.
- **The diff tracker** loses added lines that start with `++`, counts a "No newline" marker
  as a line, drops a carriage return at the end of a line, and files the rows of a file
  whose name holds a space under that name and a tab, where nothing looks for them:
  `TrackerInvertsPrinter`, `WholeDiffIsTracked`, `TrackerCanMiss`, `SpacedFileIsMissed`.

## Conventions

- *Content* of a text: its non-blank lines, each without trailing whitespace. Statements
  about configuration files up to blank lines are equalities of content.
- The *zone* of a configuration file is the content before the first line that opens a
  bracket; the *cuts agree* when that line, if any, is a bare header.
- Planner costs are integers in thousandths; weights and action costs are reals.
- Hashes, dates, identifiers and the file system appear as parameters.

## Model

| member | source | states |
|---|---|---|
| `AStar.RunAStar` | src/core/decision-lattice.ts:253-299 | the imperative search returns the state of the specified run at the first popped goal, at an empty open list or at the 64-expansion budget; its loop terminates on (unrecorded states, sum of recorded costs, open nodes), a measure that does not mention the budget |
| `AStar.SearchIsComplete` | src/core/decision-lattice.ts:253-288 | a goal node is only selected when some finite action sequence reaches a goal, and a reachable goal is only missed by spending the whole budget with nodes still open |
| `AStar.SearchIsSound` | src/core/decision-lattice.ts:253-299 | every opened and closed node is the faithful replay of its own steps; the selection is a goal node or the empty path |
| `AStar.ExhaustionIsComplete` | src/core/decision-lattice.ts:260-287 | with nothing open, every finite action sequence stays in expanded states, none of which is a goal |
| `AStar.ExpansionKeepsInvariant` | src/core/decision-lattice.ts:260-287 | expanding a non-goal keeps: every recorded state is open or expanded, and expanded states lead only to recorded ones |
| `AStar.RunKeepsInvariant` | src/core/decision-lattice.ts:253-288 | that invariant and faithfulness hold after every number of expansions |
| `AStar.ExpansionDropsMeasure` | src/core/decision-lattice.ts:260-287 | each expansion lowers the measure lexicographically: a push records one of finitely many states or strictly lowers a recorded cost |
| `AStar.PopTakesLeastScore` | src/core/decision-lattice.ts:261-263 | each expansion closes an open node of least f |
| `AStarCosts.ExhaustionFindsLeastCosts` | src/core/decision-lattice.ts:260-287 | when the search ends with nothing open, every state that some action sequence reaches has been closed by a node that replays its own steps, at the least cost of all action sequences that reach it |
| `AStarCosts.ExpansionKeepsCosts` | src/core/decision-lattice.ts:260-287 | every expansion keeps: each recorded cost is that of an open or closed node, and every successor of a closed node is recorded at no more than one step above it |
| `AStarBudget.BudgetMissesGoal` | src/core/decision-lattice.ts:253-288 | a valid problem whose goal is reachable, and on which every search spends its budget and misses it |
| `AStarBudget.GoalComesLate` | src/core/decision-lattice.ts:260-264 | in that problem a goal heads the open list only after 64 expansions |
| `AStar.StateKeyIsInjective` | src/core/decision-lattice.ts:434-436 | state keys identify clamped states, so the map from keys is a map from states |
| `AStar.EvaluateRoutePath` | src/core/decision-lattice.ts:301-333 | the accumulator loop computes the closed evaluation of the ids it can resolve |
| `AStar.SearchAgreesWithEvaluator` | src/core/decision-lattice.ts:301-361 | evaluating the ids of any faithful node gives the node's own final state, g, h, risk, friction, info gain and f if and only if each of its actions is the one its id resolves to, as with distinct ids; the two completeness flags then differ exactly when a positive debt rounds to zero |
| `Lattice.CompleteFlagsAgree` | src/core/decision-lattice.ts:342-350 | heuristic zero and goal test agree exactly when there is no debt or the debt does not round away |
| `Lattice.CompleteFlagsAgreeEverywhere` | src/core/decision-lattice.ts:342-350 | they agree on all states if and only if the proof-debt weight is at least 0.0005 |
| `Lattice.NoDebtIsGoal` | src/core/decision-lattice.ts:374-380 | a state is a goal exactly when its debt is zero |
| `Lattice.ReplayClosedForm` | src/core/decision-lattice.ts:368-372 | a non-empty route ends at min(goal, start + sum of deltas) on every axis |
| `Lattice.TallyClosedForm` | src/core/decision-lattice.ts:310-321 | step-by-step rounding of the costs adds up exactly to the sum of the rounded charges |
| `Lattice.ScoreIsExact` | src/core/decision-lattice.ts:363-366 | rounding f changes nothing: its summands are whole thousandths |
| `Lattice.RouteOrderIsIrrelevant` | src/core/decision-lattice.ts:301-333 | reordering a route changes neither its final state (hence debt and completeness) nor any cost (hence f) |
| `Lattice.DebtNeverRises` | src/core/decision-lattice.ts:368-380 | neither the debt nor the heuristic ever rises along a route |
| `Selection.SelectionMeaning` | src/core/decision-lattice.ts:335-340 | what is selected, for all candidates: never dearer than the planner's path, complete exactly when some complete candidate is no dearer, and then cheapest among the complete |
| `Selection.GoalMakesSelectionOptimal` | src/core/decision-lattice.ts:124-126 | if the planner reached the goal the selection is f-minimal among complete candidates |
| `Selection.FlagMeansCheaperIncomplete` | src/core/decision-lattice.ts:199 | the validator's selected_path_not_min_f fires exactly when some candidate is strictly cheaper than the selection; it is incomplete whenever the planner reached the goal |
| `Selection.FlagIffCheaperIncomplete` | src/core/decision-lattice.ts:199 | the same in terms of the report's inputs: some candidate is complete, and some incomplete route is strictly cheaper than the planner's path and than every complete candidate |
| `Selection.FlagIsRaisedForCorrectSelection` | src/core/decision-lattice.ts:116-199 | a report of the planner and the evaluator whose selection reaches the goal and is cheapest among complete candidates, and for which the flag is raised |
| `Selection.RejectionPartitions` | src/core/decision-lattice.ts:127-135 | the rejected list plus the selection is the candidate list, as multisets, if and only if the selected id occurs once among the candidates, as with distinct ids |
| `TomlText.SplitOfJoin` | src/cli/install-helpers-codex-lb-config.ts:128-133 | splitting undoes joining, for lines without newlines |
| `TomlText.JoinOfSplit` | src/cli/install-helpers-codex-lb-config.ts:128-133 | joining undoes splitting, for every text |
| `TomlText.ContentOfCollapse` | src/cli/install-helpers-codex-lb-config.ts:143 | collapsing runs of three or more newlines keeps every non-blank line |
| `TomlText.ContentOfEnsured` | src/core/codex-runtime/codex-desktop-config-policy.ts:189-192 | ensuring one trailing newline keeps every non-blank line |
| `TomlText.CutOfContent` | src/cli/install-helpers-codex-lb-config.ts:138-139 | cutting at the first line that passes a test commutes with taking the non-blank lines |
| `BridgeConfig.DropLines` | src/cli/install-helpers-codex-lb-config.ts:140-142 | the backward splicing loop removes exactly the matching lines before the cut |
| `BridgeConfig.RemoveTopLevelLine` | src/cli/install-helpers-codex-lb-config.ts:136-144 | the in-place removal is the specified one |
| `BridgeConfig.UpsertTopLevelTomlString` | src/core/codex-runtime/codex-desktop-config-policy.ts:194-208 | the replace-or-insert loop is the specified upsert |
| `BridgeConfig.UpsertDesktopBridgeManagedConfig` | src/cli/install-helpers-codex-lb-config.ts:18-60 | the step-by-step manager computes the specified managed text, or fails with the specified error |
| `BridgeConfig.RemoveDesktopBridgeManagedConfig` | src/cli/install-helpers-codex-lb-config.ts:64-85 | the unmanage loop computes the specified text, or fails with the specified error |
| `BridgeRoundTrip.EndsOfTopLevelAgree` | src/cli/install-helpers-codex-lb-config.ts:117-151 | the three tests for the end of top level: the first two agree if and only if the first bracket line is a bare header, the first and the third if and only if line one opens no bracket |
| `BridgeRoundTrip.RemoveTopZone` | src/cli/install-helpers-codex-lb-config.ts:136-156 | on content, removing lines up to either cut filters the top-level zone and keeps whether the cuts agree, and then everything after the zone |
| `BridgeRoundTrip.UpsertZone` | src/core/codex-runtime/codex-desktop-config-policy.ts:194-208 | binding an unbound key appends its line to the zone if the cuts agree and leaves the zone untouched otherwise |
| `BridgeRoundTrip.MarkerZone` | src/cli/install-helpers-codex-lb-config.ts:127-134 | the marker goes directly in front of the key's line |
| `BridgeRoundTrip.MarkerMisses` | src/cli/install-helpers-codex-lb-config.ts:127-134 | marking a key that the zone does not bind changes nothing |
| `BridgeOwnership.RemoveBindingsState` | src/cli/install-helpers-codex-lb-config.ts:158-169 | the six removals together filter the zone by one test, managed or not |
| `BridgeOwnership.RemoveOrphansState` | src/cli/install-helpers-codex-lb-config.ts:94-115 | orphan cleanup drops only managed lines |
| `BridgeOwnership.ManagedState` | src/cli/install-helpers-codex-lb-config.ts:32-59 | the managed file's zone: the user's lines and then each marked binding once, if the cuts agree; the user's lines alone otherwise |
| `BridgeOwnership.ReleaseBlock` | src/cli/install-helpers-codex-lb-config.ts:74-83 | one turn of the unmanage loop on a marked binding: it fails exactly when the value is not valid, and otherwise drops the marker and the binding and nothing else |
| `BridgeOwnership.UnmanageInvertsManage` | src/cli/install-helpers-codex-lb-config.ts:18-85 | for every file whose cuts agree and every accepted input: unmanaging the managed file succeeds exactly when the written values read back, and then leaves, in order, the lines that are not SKS's; every top-level line that binds one of the keys counts as SKS's, whoever wrote it |
| `BridgeOwnership.ManagedIffCutsAgree` | src/cli/install-helpers-codex-lb-config.ts:18-60 | the managed top level holds a managed line if and only if the cuts agree |
| `BridgeOwnership.ManagingAgainReplaces` | src/cli/install-helpers-codex-lb-config.ts:18-60 | managing a managed file is accepted and gives the content of managing the original |
| `BridgeOwnership.PlainValueReadsBack` | src/cli/install-helpers-codex-lb-config.ts:117-120 | a written value without a double quote is read back as itself |
| `BridgeRestore.UnmanageMisses` | src/cli/install-helpers-codex-lb-config.ts:18-85 | when the cuts differ and no marker stands between the first bracket line and the first bare header, the catalog binding that managing wrote there is still there when unmanaging succeeds |
| `BridgeRestore.RestoredIffFresh` | src/cli/install-helpers-codex-lb-config.ts:18-85 | for every accepted file whose cuts agree, unmanaging succeeds, and restores the content if and only if no top-level line is a marker or binds one of the keys |
| `BridgeRestore.RestoredIff` | src/cli/install-helpers-codex-lb-config.ts:18-85 | whether the cuts agree or not: the content is restored if and only if they do and no top-level line is a marker or binds one of the keys |
| `BridgeRestore.RoundTripIffCutsAgree` | src/cli/install-helpers-codex-lb-config.ts:18-85 | for every accepted file without such lines above its first bare header, whatever its tables hold, the content is restored if and only if its first bracket line is a bare header |
| `BridgeRestore.CommentedHeaderBreaksRoundTrip` | src/cli/install-helpers-codex-lb-config.ts:18-85 | `[a] # b` is such a file on which the round trip fails, for every usable input |
| `BridgeRestore.AcceptedIffUnreadable` | src/cli/install-helpers-codex-lb-config.ts:18-48 | a file in which no marker is read is accepted, for a valid URL and path, if and only if no line read as top level binds a key to a value that can be read; values are read line by line, so a key and its value on two lines are left out |
| `BridgeRestore.FreshIsAccepted` | src/cli/install-helpers-codex-lb-config.ts:18-48 | a file none of whose lines read as top level is a marker or binds a key is never refused, whatever its tables hold; matches across lines are left out |
| `BridgeRestore.UnreadableBindingsAreLost` | src/cli/install-helpers-codex-lb-config.ts:18-85 | a user's own bindings: in an accepted file in which no marker is read, every top-level binding of a key has an unreadable value, and managing and unmanaging loses exactly those lines |
| `BridgeRestore.UnreadableLineIsLost` | src/cli/install-helpers-codex-lb-config.ts:18-85 | every file that holds one unreadable binding and nothing else is emptied |
| `BridgeRestore.LiteralStringIsLost` | src/cli/install-helpers-codex-lb-config.ts:34-37 | `model_provider = 'azure'` is such a file, for every usable input |
| `NeatText.CollapseIsIdempotent` | src/core/auto-review.ts:449-479 | collapsing leaves no run of three newlines, and changes a text exactly when it has one |
| `NeatText.NeatIsIdempotent` | src/core/auto-review.ts:465-479 | the normalisation of rewritten files is idempotent |
| `ProfileTables.RemoveTableLines` | src/core/auto-review.ts:452-466 | the splice of `removeTable` is the specified removal |
| `ProfileTables.UpsertTableLines` | src/core/auto-review.ts:434-450 | the splice of `upsertTable` is the specified upsert |
| `ProfileTables.RemoveTopLevelStringIfValue` | src/core/auto-review.ts:468-480 | the search-and-splice loop removes the first top-level line that selects the value |
| `ProfileTables.TableBody` | src/core/auto-review.ts:362-376 | the scanning loop returns the lines between the table's first header and the next header, and nothing for a name that makes no header |
| `ProfileTables.StripLegacyProfiles` | src/core/auto-review.ts:156-165 | the migration's loop strips every listed profile in order |
| `TableUpsert.PartsOfContent` | src/core/auto-review.ts:434-450 | locating a table commutes with taking the non-blank lines |
| `TableUpsert.ContentOfUpsert` | src/core/auto-review.ts:434-450 | the content after the upsert: the table's lines replaced, or the block appended |
| `TableUpsert.ReadAfterWrite` | src/core/auto-review.ts:347-376 | reading a key of a table just written gives what the block's own lines bind it to, whatever the file was |
| `TableUpsert.OthersKept` | src/core/auto-review.ts:434-450 | no other table and nothing at top level changes |
| `TableUpsert.UpsertIsStable` | src/core/auto-review.ts:434-450 | the second upsert only collapses newlines, the third changes nothing, and the second changes nothing if and only if the first left no run of three newlines |
| `TableUpsert.UpsertIsStableAtOnce` | src/core/auto-review.ts:434-450 | it is stable at once if and only if the file already has the table or what is kept of it has no run of three newlines, as when the file has none |
| `TableUpsert.RunNeedsSecondUpsert` | src/core/auto-review.ts:434-450 | a concrete file that the second upsert still changes, for every block |
| `ProfileStrip.ContentOfStrip` | src/core/auto-review.ts:156-164 | stripping a list acts on content as dropping tables and selectors |
| `ProfileStrip.KeepAfterDropping` | src/core/auto-review.ts:418-422 | stripping loses no line outside listed tables and listed selectors, and keeps order |
| `ProfileStrip.CountsAfterDropping` | src/core/auto-review.ts:418-422 | each listing of a name uses up one of its tables and one of its selectors |
| `ProfileStrip.StrippedIffWithin` | src/core/auto-review.ts:418-422 | nothing listed is left exactly when no name has more tables or selectors than listings |
| `ProfileStrip.SecondRunIsNoOp` | src/core/auto-review.ts:148-165 | the documented no-op, exactly: a second run changes nothing, and the first removed exactly the listed tables and selectors, if and only if the file holds no more of them than there are listings |
| `ProfileStrip.RepeatedTableNeedsSecondRun` | src/core/auto-review.ts:148-165 | a file that repeats a listed header is changed by the second run |
| `SqlScanner.StripLeavesClean` | src/core/db-safety.ts:67-73 | stripped text has no closed block comment, no line comment, no irregular space |
| `SqlScanner.StripFixesClean` | src/core/db-safety.ts:67-73 | stripping changes exactly the texts that are not clean |
| `SqlScanner.StripIsIdempotent` | src/core/db-safety.ts:67-73 | stripping is idempotent |
| `SqlStatements.StripSqlStringLiterals` | src/core/db-safety.ts:77-90 | the first automaton computes length-preserving blanking |
| `SqlStatements.SplitSqlStatements` | src/core/db-safety.ts:92-105 | the second automaton computes the specified split |
| `SqlStatements.CutsAreUnquotedSemicolons` | src/core/db-safety.ts:77-105 | the second automaton cuts exactly at the semicolons that survive the first one's blanking |
| `SqlStatements.SplitIsSlices` | src/core/db-safety.ts:92-105 | statements are the trimmed stretches between cuts |
| `SqlStatements.BlankingIsLocal` | src/core/db-safety.ts:77-90 | blanking a slice that starts outside quotes is slicing the blanked text |
| `SqlStatements.StatementMatchesScript` | src/core/db-safety.ts:77-105 | each statement is a slice of the stripped script, stripping it again changes nothing, and blanking it alone equals blanking the script |
| `SqlStatements.StatementsCoverScript` | src/core/db-safety.ts:92-105 | the statements tile the stripped script without gap or overlap |
| `SqlClassifier.ClassifySql` | src/core/db-safety.ts:114-154 | the loop computes the specified classification |
| `SqlClassifier.LevelIsJoin` | src/core/db-safety.ts:114-154 | the level is the join of the statements' own risks, safe exactly when all are safe, never downgraded |
| `SqlClassifier.StepJoins` | src/core/db-safety.ts:120-152 | one turn of the classification loop joins the level with the statement's own risk |
| `SqlClassifier.LevelIgnoresOrder` | src/core/db-safety.ts:114-154 | scripts with the same statement features, in any order, have the same level |
| `SqlScripts.FeaturesBehind` | src/core/db-safety.ts:67-154 | behind a script that ends with a semicolon outside comments and quotations and leaves no block comment open, any text is stripped, split and scanned as if it stood alone: the two lists of statement features follow one another |
| `SqlScripts.CleanIsClosed` | src/core/db-safety.ts:67-105 | clean text that ends with such a semicolon and opens no block comment is such a script |
| `SqlScripts.LevelIgnoresPartOrder` | src/core/db-safety.ts:67-154 | for the script text: the level of such parts put together, with anything at the end, depends only on which parts there are, not on their order or number |
| `SqlClassifier.SafeStatements` | src/core/db-safety.ts:109-154 | a statement is safe exactly when it is read-only and neither disables row level security, upserts nor copies from |
| `SqlClassifier.StatementsAreScannable` | src/core/db-safety.ts:117-121 | no emitted statement is skipped by the classifier |
| `SqlClassifier.BlankCommutesWithLower` | src/core/db-safety.ts:75-90 | lower-casing does not disturb the quote automaton |
| `SqlClassifier.StatementIsScannedOnce` | src/core/db-safety.ts:75-121 | what the classifier tests per statement is the matching slice of the script scanned once |
| `SqlClassifier.EvaluateDbSafety` | src/core/db-safety.ts:315-377 | for a script's classification with no MAD-SKS mode, a decision allows it exactly at levels none and safe, for every contract and policy |
| `SqlClassifier.OnlySafeScriptsAreAllowed` | src/core/db-safety.ts:114-377 | a script is allowed exactly when its comment-stripped text is empty or every statement of that text is safe |
| `SqlQuotes.BlocksRespectQuotes` | src/core/db-safety.ts:67-73 | block comment stripping is what a quote-aware stripper does if and only if no closed block comment begins inside a quotation |
| `SqlQuotes.LinesRespectQuotes` | src/core/db-safety.ts:67-73 | line comment stripping is what a quote-aware stripper does if and only if no line comment begins inside a quotation |
| `SqlQuotes.StripRespectsQuotes` | src/core/db-safety.ts:67-73 | for every script in which no closed block comment begins inside a quotation, the whole stripping is quote-aware if and only if no line comment does |
| `SqlQuotes.HiddenBlockIsStripped` | src/core/db-safety.ts:67-73 | `--'/**/`: behind a line comment a quoted block comment makes no difference, so with one the equivalence does not hold |
| `SqlQuotes.DashesTakeTheRest` | src/core/db-safety.ts:67-121 | wherever two dashes stand in a text without block comments, quoted or not, what follows them on their line changes neither the stripped text nor what is classified |
| `SqlQuotes.QuotedDashesHideTheRest` | src/core/db-safety.ts:67-377 | so every contract and policy allows a script that opens with a quoted comment behind `select`, whatever follows on its line |
| `SqlQuotes.DropIsHidden` | src/core/db-safety.ts:67-377 | `select '--'; drop table t` is such a script |
| `Circuit.HealthStore.constructor` | src/core/codex-lb-circuit.ts:135-148 | an arbitrary stored file is read as the normalised record |
| `Circuit.HealthStore.Write` | src/core/codex-lb-circuit.ts:22-29 | what is stored is the record with both windows cut to ten |
| `Circuit.HealthStore.Reset` | src/core/codex-lb-circuit.ts:31-33 | a reset stores the empty record |
| `Circuit.HealthStore.RecordEvent` | src/core/codex-lb-circuit.ts:39-68 | the new record as a function of the old one and the event |
| `Circuit.HealthStore.Replay` | src/core/codex-lb-circuit.ts:31-68 | a reset and a run of events leave the record of the run |
| `Circuit.WindowsAreSuffixes` | src/core/codex-lb-circuit.ts:31-68 | for every run, the stored windows are the last ten failures and warnings since the reset, and half_open is never reached |
| `Circuit.OpenIffTripped` | src/core/codex-lb-circuit.ts:39-68 | for every run, the circuit is open if and only if, since the latest success, some failure occurred at which the last ten failures trip it |
| `Circuit.SuccessKeepsWindow` | src/core/codex-lb-circuit.ts:42-49 | a success closes the circuit but keeps the window, which the next failure reads again |
| `Circuit.AuthTripsNineMore` | src/core/codex-lb-circuit.ts:42-67 | after an auth failure, each of the next nine failures leaves the circuit open, whatever comes between |
| `Circuit.AuthIsForgottenAfterNine` | src/core/codex-lb-circuit.ts:42-67 | nine is exact |
| `DiffTracker.CollectAddedRows` | src/core/code-structure.ts:333-358 | the diff loop, from the diff's text on, computes the specified tracker run |
| `DiffText.SplitOfText` | src/core/code-structure.ts:337 | splitting the printed text gives its lines back, each without one carriage return at its end, and an empty line |
| `DiffRecovery.TrackerInvertsPrinter` | src/core/code-structure.ts:333-358 | for every edit script, the tracker recovers from the printed text exactly the added lines with their true numbers, under the file's name, if and only if no added line starts with `++` or ends in a carriage return, no "No newline" marker precedes an added line of its hunk, and the name holds no space if there are any rows |
| `DiffRecovery.TrackerCanMiss` | src/core/code-structure.ts:333-358 | in every file an added `++` is lost, a line added after an unterminated one is misnumbered, and a carriage return at the end of an added line is dropped |
| `DiffRecovery.SpacedNameIsMissed` | src/core/code-structure.ts:341-362 | for a section of plain lines nothing is found under a name that holds a space |
| `DiffRecovery.SpacedFileIsMissed` | src/core/code-structure.ts:341-362 | `a b.ts` with one added line is such a section |
| `WholeDiff.WholeDiffIsTracked` | src/core/code-structure.ts:333-358 | from the text of any diff of well-formed sections, every file gets exactly its own rows if and only if every section is clean in these four ways |
| `WholeDiff.LogIsRows` | src/core/code-structure.ts:346-353 | what the tracker holds for a file is what it has logged for it |
| `DiffTracker.HeaderIsRead` | src/core/code-structure.ts:341-345 | every printed hunk header is read as the new-file start of its range |
| `DiffTracker.AddedRowsAreNewLines` | src/core/code-structure.ts:346-353 | the rows are lines of the patched file at the numbers they carry |
| `DiffTracker.AddedRowsIncrease` | src/core/code-structure.ts:346-353 | row numbers are positive and strictly increasing |
| `DiffRecovery.CleanFileScope` | src/core/code-structure.ts:360-372 | for a clean section the scope's text has the rows and one separator between neighbouring ranges |
| `LineRanges.ContiguousLineRanges` | src/core/code-structure.ts:771-780 | the result is separated, sorted and covers exactly the positive lines given |
| `LineRanges.RangesAreUnique` | src/core/code-structure.ts:771-780 | separated ranges are determined by what they cover, so these are the maximal runs |
| `LineRanges.JoinAddedHunkRows` | src/core/code-structure.ts:782-793 | the loop joins the rows with a separator wherever the numbers jump |
| `LineRanges.SeparatorsBetweenRanges` | src/core/code-structure.ts:782-793 | for increasing rows there are exactly ranges minus one separators |
| `Attestation.Registries.CreateOfficialAdapter` | src/core/computer-use-live-evidence.ts:127-161 | the factory registers the adapter it makes and mints nothing |
| `Attestation.Registries.OfficialCapture` | src/core/computer-use-live-evidence.ts:135-157 | an official capture mints a fresh attested result bound to its request exactly when the wrapped callback succeeded |
| `Attestation.Registries.Environment` | src/core/computer-use-live-evidence.ts:119-161 | whatever other code does, registries only grow and no minted result changes its attestation or request |
| `Attestation.Registries.JudgeCapture` | src/core/computer-use-live-evidence.ts:351-426 | the evidence is marked captured exactly when the outcome is attested for this request and the file reads back |
| `Attestation.Registries.AttemptScreenshotCapture` | src/core/computer-use-live-evidence.ts:351-426 | the same with the adapter's registration checked before it is awaited |
| `Attestation.Registries.BuildDetected` | src/core/computer-use-live-evidence.ts:216-302 | the builder after capability detection |
| `Attestation.Evidence.Conclude` | src/core/computer-use-live-evidence.ts:288-301 | an action is always blocked, and only a verified capture becomes a success |
| `Attestation.Registries.BuildLiveEvidence` | src/core/computer-use-live-evidence.ts:206-302 | for every behaviour of adapters and capability detection: success if and only if an adapter registered when capabilities had been detected returned an object the factory minted for this request, still carrying its attestation; and the validator accepts whatever is built |
| `Tokenizer.TokenizeCommand` | src/core/feature-fixture-executor.ts:295-328 | the character loop computes the specified tokens |
| `Tokenizer.PrintRoundTrip` | src/core/feature-fixture-executor.ts:295-328 | every list of strings, empty ones and any mix of quotes included, has a printing that tokenizes back to it |
| `Tokenizer.JoinedBySpace` | src/core/feature-fixture-executor.ts:295-328 | joining two commands by a space concatenates their tokens if and only if the first ends outside quotes |
| `BridgeArgv.ParseArgs` | src/commands/bridge.ts:397-426 | the index loop computes the specified parse or error |
| `BridgeArgv.RejectSecretArgv` | src/commands/bridge.ts:428-436 | the loop rejects exactly the vectors holding a secret option |
| `BridgeArgv.ParsedIffRendered` | src/commands/bridge.ts:397-426 | the accepted vectors are exactly the renderings of well-formed items, and parse to what the items hold |
| `BridgeArgv.ParseConserves` | src/commands/bridge.ts:397-426 | on success length of args = positionals + flags + twice the values, and positional order is kept |
| `BridgeArgv.ParsedHasNoSecret` | src/commands/bridge.ts:212-214 | the secret check only chooses the error: a vector it rejects would not have been parsed |
| `BridgeInvocation.DecidedIsDenoted` | src/commands/bridge.ts:215-395 | whatever request is decided, the arguments denote it: its words, its flags, its values |
| `BridgeInvocation.DenotedIsDecided` | src/commands/bridge.ts:215-395 | whatever request the arguments denote is decided |
| `BridgeInvocation.InvokedIffSpelled` | src/commands/bridge.ts:212-426 | a vector is accepted as an invocation if and only if it spells it, options placed anywhere |
| `BridgeInvocation.RequestRoundTrip` | src/commands/bridge.ts:212-426 | every rendering of a request, with any of its optional flags, any values that denote it, and options anywhere, parses to that request |
| `BridgeInvocation.RequestsMade` | src/commands/bridge.ts:212-395 | the requests some command line makes are exactly the described ones |
| `BridgeInvocation.IdsReadBack` | src/commands/bridge.ts:334-336 | a printed selection reads back as its ids; a comma goes in front only of one that starts with two dashes |
| `BridgeInvocation.CommasReadBack` | src/commands/bridge.ts:334-336 | ids joined by commas read back as those ids |
| `BridgeInvocation.SelectionRoundTrip` | src/commands/bridge.ts:332-342 | `models select --set a,b` selects a and b |
| `BridgeInvocation.ServeArgumentsReachServe` | src/core/codex-lb/bridge-cli-contract.ts:58-72 | the arguments launchd passes reach `serve` for every valid settings path |

## Left out

- UnmanageInvertsManage: is for single-line catalog paths, and equates content, so it does not say that trailing whitespace inside the user's lines survives (the methods are pinned to text functions that keep it, except on the last line).
- UpsertZone: is for values without a newline; what the code makes of a multi-line value depends on expressions that match across lines, which are not modelled.
- ManagedState: is for single-line catalog paths, for the same reason.
- ManagedIffCutsAgree: is for single-line catalog paths, for the same reason.
- ManagingAgainReplaces: is for single-line catalog paths, for the same reason.
- UpsertDesktopBridgeManagedConfig: takes the normalised base URL, or its rejection, as a parameter, because it comes from a URL parser that is not part of this model.
- ContentOfUpsert: is for blocks of the form described for ReadAfterWrite.
- OthersKept: is for blocks of that form.
- UpsertIsStable: is for blocks of that form.
- UpsertIsStableAtOnce: is for blocks of that form.
- StripRespectsQuotes: is for scripts without a closed block comment that begins inside a quotation; with one, a line comment can hide what the block pass does there, and the converses hold pass by pass.
- RestoredIff: leaves out files that hold, between a first bracket line that is no bare header and the first bare header, a marker or the very line that managing writes.
- ReadAfterWrite: is for blocks that start with their header, hold no other header, no run of three newlines and no space at either end, as all blocks of the tool do.
- SafeStatements: leaves out the advisory reason `select_star_without_limit`, which changes no level.
- EvaluateDbSafety: is about the classification of a script; tool payloads, shell commands, the `possible_db` level and an active MAD-SKS mode are not modelled.
- ParseInvocation: leaves out labels and the list of secrets to redact, which decorate the result.
- TrackerInvertsPrinter: the printer quotes no file names and prints no section for deleted files; a path that git quotes does not start with one of the source directories, so its diff is never asked for.
- Planner: binary floating point (arithmetic is exact), normalisation of raw inputs, labels, notes, snapshots, the conceptual grid and the texts of rejection reasons.
- Collation by `localeCompare`: identifiers are ordered by an arbitrary comparison, state keys by their digits.
- Regular expressions of the TOML code that could match across several lines: keys, values and headers are matched line by line, and a carriage return does not end a comment.
- Paths on Windows; `path.isAbsolute` and `path.basename` are the POSIX ones.
- `upsertTopLevelString` of the auto-review module: a sibling of the modelled upsert that differs only in how it normalises trailing newlines.
- `reconcileRetiredSksConfigText`'s conflict detection by hashes of known bodies, and the per-profile files.
- Lower-casing of letters outside ASCII, in SQL and in option names.
- Circuit breaker: `normalizeHealthEvent`'s string matching (events come with their kind), timestamps, latency metrics, redaction, and concurrent writers of the health file, against which the code has no lock.
- Diff scanning: the twin loop in `collectAddedFallbackSites`, explicit scopes and the whole-file fallback for added files.
- Capture attestation: what capability detection reports, image voxel linking, warnings, message redaction; the output of reading the captured file is a parameter.
- Report aggregation, file, network, process and clock access throughout.
