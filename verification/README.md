# OpenCloud: verified models of its concurrent, parsing and repair code

This project models the parts of OpenCloud whose behaviour is hardest to see from one function, and
proves what they are for:

* **Runners and group runners** (`pkg/runner`): flags, buffered channels that get closed, two levels
  of timers, interrupts from anywhere. A run is any sequence of atomic steps of any goroutine; the
  invariants hold in every reachable state, for a group of any size.
* **The KQL front end** (`pkg/kql`): the parsing expression grammar runtime with its reused stack of
  label scopes is proved to compute a pure meaning of grammars, for every well-formed grammar, and
  that meaning obeys the laws of such grammars; implicit operators, operator validation and quoted
  strings are proved against independent definitions. A concrete syntax, written down without the
  parser, connects both ends: every query that `Build` accepts is spelled like items of it whose
  nodes, connected, are the result, and whatever items of it are written are read back as their
  nodes, nested to any depth.
* **The backup consistency check** (`opencloud/pkg/backup`): an online matcher against a
  declarative report, over every arrival order.
* **Tree walkers**: the bounded-worker folder lister (`opencloud/pkg/revisions`), the posixfs
  attribute check and ID merge, and the decomposedfs tree size repair (`opencloud/pkg/command`).
* **Sequential cores**: the Markdown reader and writer (`pkg/markdown`), escaped claim paths
  (`pkg/oidc`), and the cache with pooled entries (`pkg/sync`).

Objects that the source updates in place are classes with the same fields; their methods are proved
against functions on values, and the theorems are lemmas about those functions. Pure code is
functions and lemmas. Goroutines are step functions on states, because Dafny has no threads.

| files | subject |
|---|---|
| `RunnerProtocol.dfy`, `RunnerRun.dfy` | one runner; `Runner.Run` |
| `GroupMembers.dfy`, `GroupProtocol.dfy`, `GroupTheorems.dfy` | the group |
| `GroupInterrupt.dfy` | whom the group's interrupt stops, where results come from, progress without interrupts |
| `Peg.dfy`, `PegParser.dfy`, `PegLaws.dfy` | grammars and their meaning; the parser runtime; laws of the meaning |
| `Ast.dfy`, `Connect.dfy`, `Validate.dfy` | implicit operators, operator validation |
| `KqlGrammar.dfy`, `KqlStrings.dfy`, `KqlQuery.dfy` | the KQL grammar with its actions, quoted strings, `Build` |
| `KqlSyntax.dfy` | the concrete syntax of KQL without the parser |
| `KqlClean.dfy`, `KqlRestrictions.dfy`, `KqlAccepted.dfy` | what is accepted is spelled like that syntax |
| `KqlMatch.dfy`, `KqlValues.dfy`, `KqlKeyed.dfy`, `KqlReads.dfy` | what each expression makes of a given text |
| `KqlRoundTrip.dfy`, `KqlQueries.dfy` | what is written is read back; whole queries |
| `Backup.dfy` | backup consistency |
| `Revisions.dfy` | the folder lister |
| `Posixfs.dfy`, `TreeSize.dfy` | attribute and tree size repair |
| `Text.dfy`, `Markdown.dfy`, `Claims.dfy` | strings, Markdown, claim paths |
| `Cache.dfy` | the cache |

Where the code and its documentation differ, the model follows the code, and the difference is stated:

* A backup report depends on the arrival order of events exactly when some link points to a node that
  needs no link and reports nothing (`Backup.OrderIrrelevantIff`).
* `GroupRunner.Run` returns one result per runner, except that a group without runners can return one
  timeout when somebody else interrupts it (`GroupTheorems.EmptyGroupMayYieldOne`).
* The level of a Markdown heading is the position of its last `#`, not the number of leading ones
  (`Markdown.LevelIsLeadingMarksIff`).
* The space check of decomposedfs goes on after a walk that failed, with size 0, so that a repair then
  overwrites the size of the root (`TreeSize.Storage.Check`).
* An accepted merge of space IDs unifies the entries exactly when the chosen ID is not empty
  (`Posixfs.MergeUnifies`).
* A claim path survives escaping, joining and splitting exactly when no segment but the last ends in
  the escape (`Claims.RoundTripIff`).
* `Load` does not take the expired entries it removes off `length`, which is therefore at least the number
  of entries, and that number if and only if no `Load` has removed one (`Cache.LengthIsSizeIff`, with a
  witness in `Cache.DroppedStaysCounted`).
* The report of a backup is empty for a consistent storage, except that a link to a node that needs none
  is reported when it arrives after the node (`Backup.EmptyReportIff`).

## Model

| member | source | states |
|---|---|---|
| RunnerProtocol.StepKeepsInv | pkg/runner/runner.go:87-201 | Every step of the body, the task, the timer and any interrupter keeps the invariant that ties flags, counters, program counters and the contents of `finished`, `tmpCh` and `interruptedCh` together |
| RunnerProtocol.StepWorks | pkg/runner/runner.go:116-201 | Every step of a runner lowers a bounded amount of work, except an `Interrupt` that loses the swap, which changes nothing |
| RunnerProtocol.StepEffect | pkg/runner/runner.go:135-201 | What one step may change of what others see: running, interrupted, delivered results, the closing of `finished`; and that the calls of outsiders are always enabled |
| RunnerProtocol.DeliveredAfterFinished | pkg/runner/runner.go:169-197 | A task's own result is delivered only after `finished` was closed |
| RunnerProtocol.StepTrace | pkg/runner/runner.go:165-201 | Only the act of the task decides what it has returned, and only the timer's own makes it fire |
| RunnerProtocol.NextOwnIsEnabled | pkg/runner/runner.go:165-201 | A running task that has delivered nothing can take its next step, or send its result, without any interrupt |
| RunnerProtocol.NobodyHangs | pkg/runner/runner.go:135-201 | The timer goroutine goes on, and without waiting for its timer once the task has finished; no step of the body behind the return ever blocks |
| RunnerRun.ExecKeepsStateInv | pkg/runner/runner.go:87-105 | The invariant of a runner together with the caller of `Run`, over whole runs |
| RunnerRun.RunDiscipline | pkg/runner/runner.go:87-201 | Over all runs: no send on or close of a closed channel, body and stopper start at most once, `Run` returns the one result that was sent: the error with which the task itself returned in this run, after `finished` was closed, or a timeout with the given id and duration after an interrupt and a fired timer of this run |
| RunnerRun.SelectingNotStuck | pkg/runner/runner.go:87-105 | As long as the context has not ended, `Run` waits for no interrupt: the next step of the task, or the receive of its result, is enabled |
| RunnerRun.RunCallsStopper | pkg/runner/runner.go:98-104 | If nobody else interrupts: a context that has ended has had the stopper called, once, and back before `Run` goes on; without its end the stopper is never called |
| RunnerRun.ContextEndsRun | pkg/runner/runner.go:98-104 | A context that ends while `Run` waits ends `Run` within a bound, even if the task never returns |
| RunnerRun.RunNotStuck | pkg/runner/runner.go:98-104 | Once the context ended `Run` is never stuck, even if the task never ends |
| RunnerRun.RunReturns | pkg/runner/runner.go:98-104 | After the context ended a bounded number of owed steps can follow, and where none is enabled `Run` has returned |
| RunnerRun.StepDecreases | pkg/runner/runner.go:87-201 | Every step of the whole system makes progress or changes nothing |
| RunnerRun.RunBounded | pkg/runner/runner.go:87-201 | A bound on the steps that the runtime owes, so that `Run` returns |
| GroupMembers.GroupRunner.constructor | pkg/runner/grouprunner.go:46-62 | An empty group, not running |
| GroupMembers.GroupRunner.Add | pkg/runner/grouprunner.go:64-84 | Panics exactly when the group runs or the id is taken, and then changes nothing; otherwise adds one member and counts it |
| GroupMembers.GroupRunner.Begin | pkg/runner/grouprunner.go:104-116 | What `Run` starts from is an initial state of the protocol with the members added so far, and the channel has room for one result each |
| GroupProtocol.MainKeepsInv | pkg/runner/grouprunner.go:122-154 | The first wait, the interrupt and the collection loop keep the group invariant |
| GroupProtocol.SwapKeepsInv | pkg/runner/grouprunner.go:239-253 | The group's interrupt of one member keeps it |
| GroupProtocol.StepKeepsGroupInv | pkg/runner/grouprunner.go:104-262 | Every step of every goroutine keeps it, and the set of members and the duration never change |
| GroupProtocol.ReachableInv | pkg/runner/grouprunner.go:104-262 | It holds in every reachable state |
| GroupTheorems.SendNeverBlocks | pkg/runner/grouprunner.go:115-120 | No task's send into the group channel ever blocks, not even after `Run` returned |
| GroupTheorems.ResultsAreGenuine | pkg/runner/grouprunner.go:122-154 | Every result is a group timeout with the configured duration or the one result its runner delivered, and no runner's result occurs twice |
| GroupInterrupt.ResultsComeFromActs | pkg/runner/grouprunner.go:122-154 | Every result goes back to an act of the run: an error is one with which that member's task returned, a timeout has the duration it was made with and its timer fired |
| GroupTheorems.RunResults | pkg/runner/grouprunner.go:104-162 | `Run` returns one result per runner, and without group timeouts the ids are exactly the group's; only an empty group can yield an entry too many |
| GroupTheorems.EmptyGroupMayYieldOne | pkg/runner/grouprunner.go:122-137 | A run in which a group without runners returns one timeout |
| GroupTheorems.StoppersAtMostOnce | pkg/runner/grouprunner.go:239-253 | However interrupts race, no stopper and no body runs twice, and a runner whose own result ended the first wait is not claimed by the interrupt that `Run` then issues |
| GroupInterrupt.InterruptReachesAll | pkg/runner/grouprunner.go:239-253 | When the group's interrupt is through every member has finished or is interrupted, and before that all it has passed |
| GroupInterrupt.WonSwapIsWaitedFor | pkg/runner/grouprunner.go:239-253 | A member whose swap the group's interrupt won has had its stopper called, once, and back when the interrupt is through |
| GroupInterrupt.InterruptStopsAll | pkg/runner/grouprunner.go:239-253 | So has every member that has not finished and that nobody else interrupted |
| GroupInterrupt.RunStopsAll | pkg/runner/grouprunner.go:104-154 | Without other callers `Run` collects and returns only after it has stopped every member that has not finished |
| GroupInterrupt.FinisherIsSpared | pkg/runner/grouprunner.go:98-103 | A task whose own result ended the first wait is never stopped, unless somebody else interrupts it or the group |
| GroupInterrupt.TaskNotStuck | pkg/runner/grouprunner.go:115-120 | Every member of a started group that has delivered nothing can take a step of its own, without any interrupt |
| GroupInterrupt.FirstWaitNotStuck | pkg/runner/grouprunner.go:122-137 | So the first wait of a group that is not empty can go on: a member can, or a result is there to be received |
| GroupInterrupt.ContextEndsRun | pkg/runner/grouprunner.go:122-162 | A context that ends, ends the first wait and within a bound `Run`, even if no task ever returns |
| GroupTheorems.WalkNotStuck | pkg/runner/grouprunner.go:239-253 | The range over the members can always go on, given that stoppers return |
| GroupTheorems.TimerNotStuck | pkg/runner/grouprunner.go:139-154 | The group timer's one send and its close are enough to end the collection loop |
| GroupTheorems.NotStuck | pkg/runner/grouprunner.go:122-162 | Once the first wait is over no reachable state before the return is stuck, even if no task ever ends |
| GroupTheorems.StepBudget | pkg/runner/grouprunner.go:122-262 | Every owed step lowers a budget that no other step raises |
| GroupTheorems.ExecBudget | pkg/runner/grouprunner.go:122-262 | The owed steps of a whole run are within the budget |
| GroupTheorems.RunReturns | pkg/runner/grouprunner.go:104-162 | After the first wait at most that many owed steps follow, and where none is enabled `Run` has returned |
| Peg.Point | pkg/kql/dictionary_gen.go:5812-5829 | Offset, rune and width of the savepoint at a position |
| Peg.PointIsLineAndColumn | pkg/kql/dictionary_gen.go:5812-5829 | Its line counts the newlines read so far, from 1, and its column the runes read since the last one |
| Peg.Eval | pkg/kql/dictionary_gen.go:5950-6263 | The meaning of an expression is total on well-formed grammars; success never moves back and moves forward unless the expression may be empty |
| Peg.EvalChoice | pkg/kql/dictionary_gen.go:6109-6123 | The same for ordered choice |
| Peg.EvalSeq | pkg/kql/dictionary_gen.go:6215-6228 | The same for sequences, which share the enclosing scope |
| Peg.EvalLoop | pkg/kql/dictionary_gen.go:6175-6191 | Loops always succeed and end |
| Peg.ErrorsGrow | pkg/kql/dictionary_gen.go:5764-5790 | Errors are only ever added: no recovery and no lookahead takes one back |
| PegLaws.MatchIsCovered | pkg/kql/dictionary_gen.go:5950-6263 | The text that an expression matches is one that it describes without order and lookahead |
| PegLaws.ErrorsAreApart | pkg/kql/dictionary_gen.go:5764-5790 | What matches does not depend on the errors reported before |
| PegLaws.KeepsScope | pkg/kql/dictionary_gen.go:5708-5737 | Only labels, actions and sequences change the labels of a scope |
| PegLaws.NotIsNegation | pkg/kql/dictionary_gen.go:6163-6173 | Negative lookahead succeeds exactly where its expression fails, consuming and binding nothing |
| PegLaws.NotNotIsAnd | pkg/kql/dictionary_gen.go:6025-6033 | Its double is positive lookahead |
| PegLaws.EndOfInput | pkg/kql/dictionary.peg:14-15 | `!.` succeeds at the end of the input and nowhere else |
| PegLaws.LoopIsGreedy | pkg/kql/dictionary_gen.go:6243-6255 | Where a loop ends its body fails |
| PegLaws.Repetitions | pkg/kql/dictionary_gen.go:6175-6191 | `e*` is `e+` or nothing |
| PegLaws.OptionIsChoice | pkg/kql/dictionary_gen.go:6257-6263 | `e?` is a choice of `e` and nothing |
| PegLaws.ChoiceIsFirst | pkg/kql/dictionary_gen.go:6109-6123 | A choice is its first alternative that matches, and those before it fail |
| PegLaws.InvertedIsNot | pkg/kql/dictionary_gen.go:6047-6107 | An inverted class is the class under negative lookahead and then any rune |
| PegLaws.LiteralSplits | pkg/kql/dictionary_gen.go:6136-6152 | A literal is its parts in a row |
| PegLaws.ActionIsRun | pkg/kql/dictionary_gen.go:5999-6013 | An action gets its scope, the matched text and its start by line and column, and an error is recorded with that place and the rule |
| PegLaws.LabelBinds | pkg/kql/dictionary_gen.go:6125-6134 | A label binds the value of its expression, which sees no other label |
| PegParser.Parser.constructor | pkg/kql/dictionary_gen.go:5850-5880 | A parser at the start of its input, with empty stacks |
| PegParser.Parser.PushV | pkg/kql/dictionary_gen.go:5708-5726 | A pushed scope is empty even when the slot holds an old map; outer scopes stay |
| PegParser.Parser.PopV | pkg/kql/dictionary_gen.go:5729-5737 | Pops exactly one scope |
| PegParser.Parser.Read | pkg/kql/dictionary_gen.go:5812-5829 | Moves to the next savepoint |
| PegParser.Parser.Restore | pkg/kql/dictionary_gen.go:5831-5837 | Goes back to a savepoint |
| PegParser.Parser.ParseRule | pkg/kql/dictionary_gen.go:5935-5942 | A rule is its body's meaning in a fresh scope; both stacks are balanced |
| PegParser.Parser.ParseExpr | pkg/kql/dictionary_gen.go:5950-5997 | On success exactly the position, value, labels and errors of the meaning; on failure the old position; outer scopes and the rule stack untouched |
| PegParser.Parser.ParseActionExpr | pkg/kql/dictionary_gen.go:5999-6013 | An action sees exactly the labels of its own scope, the text it matched and its start |
| PegParser.Parser.ParseAndExpr | pkg/kql/dictionary_gen.go:6025-6033 | Lookahead gives back position and labels |
| PegParser.Parser.ParseNotExpr | pkg/kql/dictionary_gen.go:6163-6173 | Negative lookahead gives back position and labels |
| PegParser.Parser.ParseAnyMatcher | pkg/kql/dictionary_gen.go:6035-6045 | Any one rune, and failure at the end |
| PegParser.Parser.ParseCharClassMatcher | pkg/kql/dictionary_gen.go:6047-6107 | One rune in, or outside, a class |
| PegParser.Parser.ParseChoiceExpr | pkg/kql/dictionary_gen.go:6109-6123 | The first alternative that matches, each tried in a scope of its own |
| PegParser.Parser.ParseLabeledExpr | pkg/kql/dictionary_gen.go:6125-6134 | Binds the value in the enclosing scope only |
| PegParser.Parser.ParseLitMatcher | pkg/kql/dictionary_gen.go:6136-6152 | The literal or a restored position |
| PegParser.Parser.ParseOneOrMoreExpr | pkg/kql/dictionary_gen.go:6175-6191 | The loop equals the recursive meaning and ends |
| PegParser.Parser.ParseZeroOrMoreExpr | pkg/kql/dictionary_gen.go:6243-6255 | The loop equals the recursive meaning and ends |
| PegParser.Parser.ParseZeroOrOneExpr | pkg/kql/dictionary_gen.go:6257-6263 | Optional parts never fail |
| PegParser.Parser.ParseSeqExpr | pkg/kql/dictionary_gen.go:6215-6228 | A failing element restores the start of the sequence |
| PegParser.Parser.Parse | pkg/kql/dictionary_gen.go:5850-5922 | The whole parse ends and gives the value, position and errors of the pure meaning |
| Connect.ConnectPair | pkg/kql/connect.go:62-129 | The operator for a pair of neighbours: none after an operator or before AND and OR, AND before NOT, the same-key operator for equal non-empty keys, else AND |
| Connect.ConnectNode | pkg/kql/connect.go:28-48 | Scanning the connected tail finds what the left to right rule finds |
| Connect.ConnectNodes | pkg/kql/connect.go:10-25 | The right to left loop equals the local left to right specification |
| Connect.BetweenConnected | pkg/kql/connect.go:10-25 | Connecting the tail first does not change the operator in front of it |
| Connect.ErasureRestores | pkg/kql/connect.go:10-48 | Erasing the inserted operators gives back the input |
| Connect.ConnectedIsWellConnected | pkg/kql/connect.go:62-129 | An operator follows every operand that has a successor, and an inserted one is the same-key operator exactly between adjacent operands with the same key |
| Connect.ToLowerFolds | pkg/kql/connect.go:62-80 | Lower case makes equal exactly what differs at most in the case of letters |
| Connect.NeighboursWithKeys | pkg/kql/connect.go:62-129 | Two neighbours are alternatives if and only if they have the same key but for case, and it is not empty |
| Connect.NumbersAreNoAlternatives | pkg/kql/connect.go:62-129 | A number is connected with AND whatever its key, which the connector does not look at |
| Connect.ConnectedTwice | pkg/kql/connect.go:10-48 | A second application changes nothing |
| Validate.ValidateFrom | pkg/kql/validate.go:27-50 | Reports the first dangling operator, and none exactly when there is none |
| Validate.FirstKeyed | pkg/kql/validate.go:16-22 | Finds a node with a key exactly when there is one |
| Validate.ValidateGroup | pkg/kql/validate.go:11-25 | Accepts exactly groups without dangling operators and, if they have a key, without keyed nodes |
| Validate.KeyInKeyedGroupIsRejected | pkg/kql/validate.go:11-25 | A node with a key in a group with a key is rejected |
| Validate.OkIffQuery | pkg/kql/validate.go:27-50 | After connecting, nothing dangles exactly when the input is NOT* operand ((AND or OR)? NOT* operand)* |
| Validate.AcceptsExactlyQueries | pkg/kql/factory.go:30-51 | Connecting and validating accepts exactly the non-empty lists of that shape, and what it accepts has one binary operator between consecutive operands |
| Validate.EmptyIsAccepted | pkg/kql/validate.go:27-50 | The empty list is accepted although it is not a query |
| KqlGrammar.KqlIsWellFormed | pkg/kql/dictionary.peg:9-37 | The grammar has no nullable loop body and no left recursion, the cycle through groups consumes the parenthesis first, so parsing ends for every input |
| KqlGrammar.NodeChoicesAreTokens | pkg/kql/dictionary.peg:43-60 | Every restriction, operator and free text consumes something when it matches |
| KqlStrings.UnquoteQuote | pkg/kql/cast.go:74-78 | Unquoting a quoted value gives the value |
| KqlStrings.LoopForward | pkg/kql/dictionary_gen.go:2616-2657 | Between the quotes the rule consumes exactly the doubled value |
| KqlStrings.LoopBackward | pkg/kql/dictionary_gen.go:2616-2657 | What it consumes is always a doubled value, up to a lone quote or the end |
| KqlStrings.StringForward | pkg/kql/dictionary_gen.go:2616-2657 | The String rule at a quoted value that no quote follows consumes exactly the token and yields the value |
| KqlStrings.StringBackward | pkg/kql/dictionary_gen.go:2616-2657 | Whatever the rule matches is the quoted form of the value it yields |
| KqlQuery.CannotStartFails | pkg/kql/dictionary_gen.go:6109-6123 | A syntactic analysis of first runes is right about failure |
| KqlQuery.BuildQuery | pkg/kql/kql.go:25-52 | The stateful parser, run on the KQL grammar, accepts what the pure meaning accepts, with the same nodes |
| KqlSyntax.KeyOf | pkg/kql/dictionary.peg:235-238 | The Key rule covers words of letters with dots between them |
| KqlSyntax.MomentOf | pkg/kql/dictionary.peg:167-210 | The rules for times cover a date, a time with fraction and zone, or both with a `T` |
| KqlSyntax.NumberOf | pkg/kql/dictionary.peg:278-281 | The Number rule covers digits and at most one dot between them |
| KqlSyntax.PeriodOf | pkg/kql/dictionary.peg:212-224 | The rule for natural language dates covers the ten periods |
| KqlClean.TextOf | pkg/kql/cast.go:50-72 | The text of a value that is made of matched pieces is the text that was matched |
| KqlRestrictions.KeyedTextMeans | pkg/kql/dictionary.peg:82-88 | A matched text restriction is spelled `key=text` or `key:text`, and its node has that key and text and is exact for `=` |
| KqlRestrictions.MomentMeans | pkg/kql/dictionary.peg:54-64 | A matched time restriction is key, operator and a whole time, quoted or not, and its node has all three |
| KqlRestrictions.PeriodMeans | pkg/kql/factory.go:135-167 | A matched period stands for its start, AND and its end |
| KqlRestrictions.QuantityMeans | pkg/kql/dictionary.peg:72-80 | The same for numbers |
| KqlRestrictions.YesNoMeans | pkg/kql/factory.go:169-190 | A matched truth is `true` or `false`, and so is its node |
| KqlRestrictions.OperatorMeans | pkg/kql/factory.go:192-214 | `AND` and `+`, `NOT` and `-`, and `OR` build those operators |
| KqlRestrictions.WordsMean | pkg/kql/dictionary.peg:98-106 | Matched free text is its value with blanks and optional colons around it |
| KqlAccepted.ConnectedIsGood | pkg/kql/connect.go:10-25 | Connecting adds nothing but AND and OR |
| KqlAccepted.AllToNodesMore | pkg/kql/cast.go:23-48 | Flattening nested lists is concatenation |
| KqlAccepted.GroupBuilt | pkg/kql/validate.go:11-25 | A group that is built alternates operands and binary operators, and has no keyed node under a key |
| KqlAccepted.GroupMeans | pkg/kql/dictionary.peg:34-37 | A group that matches is an optional key and separator and, in parentheses, items whose connected nodes it holds; by induction on the remaining input |
| KqlAccepted.AcceptedIsWritten | pkg/kql/kql.go:25-52 | Every accepted query is spelled, from its first to its last rune, like items of the concrete syntax, and the result is their nodes, connected |
| KqlAccepted.AcceptedIsConnected | pkg/kql/kql.go:25-52 | Whatever query is accepted, one binary operator stands between consecutive operands at the top and in every group, and no group with a key holds a keyed node |
| KqlValues.MomentTaken | pkg/kql/dictionary.peg:250-256 | A time, up to what may follow it, is taken whole |
| KqlValues.NumberIsNoMoment | pkg/kql/dictionary.peg:250-256 | No number is taken for a time |
| KqlValues.PeriodTaken | pkg/kql/dictionary.peg:212-224 | Each of the ten periods is taken for itself, although others come first |
| KqlReads.MomentRead | pkg/kql/dictionary.peg:54-64 | A key, any operator and a whole time are read as that time restriction |
| KqlReads.PeriodRead | pkg/kql/dictionary.peg:65-70 | A key, `:` or `=` and a period are read as the two ends of the period |
| KqlReads.QuantityRead | pkg/kql/dictionary.peg:72-80 | A key, a comparison and a whole number are read as that number restriction |
| KqlReads.TruthRead | pkg/kql/dictionary.peg:49-52 | A key, `:` or `=` and `true` or `false` are read as that truth |
| KqlReads.TextRead | pkg/kql/dictionary.peg:82-88 | A key, `:` or `=` and text that starts like none of these are read as that text, exact for `=` |
| KqlRoundTrip.WrittenIsRead | pkg/kql/kql.go:25-52 | Whatever plainly spelled items are written, in any order and nested to any depth, the query is accepted exactly when validation accepts their connected nodes, and these are the result |
| KqlQueries.PhraseQuery | pkg/kql/kql.go:25-52 | The query that is one quoted value is one string node without a key and with exactly that value |
| KqlQueries.NegatedQuery | pkg/kql/factory.go:192-214 | `-"v"` and `NOT "v"` are the negated phrase, for every value |
| KqlQueries.BinaryQuery | pkg/kql/factory.go:192-214 | Two phrases with `AND`, `+` or `OR` between them are these phrases and that operator |
| KqlQueries.TaggedQuery | pkg/kql/connect.go:62-129 | Two keyed phrases side by side are joined by OR if the keys differ at most in case, else by AND |
| KqlQueries.GroupQuery | pkg/kql/dictionary.peg:34-37 | `key:("u" "v")` is a group with that key in which both phrases must hold |
| KqlQueries.OneItemQuery | pkg/kql/kql.go:25-52 | A query that is one restriction, group or piece of free text is read as just its nodes |
| KqlQueries.CatNotDog | pkg/kql/dictionary_test.go:246-256 | `cat -dog` is cat AND NOT dog |
| KqlQueries.StrayParenIsRejected | pkg/kql/dictionary.peg:9-15 | A query with a closing parenthesis but no opening one and no quotes is rejected, however it starts |
| Backup.Consistency.constructor | opencloud/pkg/backup/backup.go:50-60 | Empty tables |
| Backup.Consistency.GatherData | opencloud/pkg/backup/backup.go:78-134 | Ends with exactly the tables that the event list determines |
| Backup.MatchAllDescribes | opencloud/pkg/backup/backup.go:79-118 | After any prefix of unique events each of the four tables holds exactly the paths that a search through the events says |
| Backup.ReportIsDeclared | opencloud/pkg/backup/backup.go:120-134 | The final report is the declarative one over the set of events |
| Backup.DeclaredIsUnique | opencloud/pkg/backup/backup.go:120-134 | A set of events has one declarative report |
| Backup.OrderIsIrrelevant | opencloud/pkg/backup/backup.go:78-134 | Any permutation of the events gives the same report |
| Backup.OrderIrrelevantIff | opencloud/pkg/backup/backup.go:86-108 | For unique events that is so if and only if no link points to a node that needs none and reports nothing |
| Backup.LateLinkIsOrder | opencloud/pkg/backup/backup.go:101-108 | Such a link is reported exactly when it arrives after its node |
| Backup.EmptyReportIff | opencloud/pkg/backup/backup.go:162-166 | For unique events the report is empty exactly when nodes, links, references and blobs match and no link to a node that needs none arrived after it |
| Backup.EmptyReportIffConsistent | opencloud/pkg/backup/backup.go:162-166 | Where the order does not matter, exactly when they match |
| Revisions.StepKeepsInv | opencloud/pkg/revisions/revisions.go:218-245 | Every step of every goroutine keeps slots, family and output in agreement |
| Revisions.StartsIdle | opencloud/pkg/revisions/revisions.go:228-234 | The goroutine of a folder is started once |
| Revisions.StepKeepsSlots | opencloud/pkg/revisions/revisions.go:219-243 | The slots taken are exactly the folders being read, at most `workers` |
| Revisions.StepKeepsProgress | opencloud/pkg/revisions/revisions.go:218-245 | A folder is started exactly when its parent's loop has passed it, and is over before its parent |
| Revisions.StepKeepsEmitted | opencloud/pkg/revisions/revisions.go:236-238 | What was sent, once each, is exactly the matching entries whose turn is over |
| Revisions.NeverTooMany | opencloud/pkg/revisions/revisions.go:124-135 | In every reachable state at most `workers` folders hold a slot, and no send meets the closed channel |
| Revisions.SentIsMatching | opencloud/pkg/revisions/revisions.go:236-238 | At any time only matching entries have been sent, none twice |
| Revisions.ClosedIsComplete | opencloud/pkg/revisions/revisions.go:124-135 | When the output is closed every goroutine is over and exactly the matching entries below the base were sent, each once |
| Revisions.JoinerMoves | opencloud/pkg/revisions/revisions.go:242-243 | Of the goroutines that wait for others a deepest one waits for none |
| Revisions.NotStuck | opencloud/pkg/revisions/revisions.go:218-245 | With a worker no reachable state before the close is stuck |
| Revisions.StepTakesBudget | opencloud/pkg/revisions/revisions.go:218-245 | Every step lowers the sum of the steps that the folders have left |
| Revisions.EveryScheduleLists | opencloud/pkg/revisions/revisions.go:124-135 | Every schedule ends within a bound and, where it cannot go on, has listed the tree and closed the output |
| Revisions.NoWorkersNoListing | opencloud/pkg/revisions/revisions.go:218-219 | Without workers nothing ever happens |
| Posixfs.Checker.constructor | opencloud/pkg/command/posixfs_consistency.go:25-31 | A checker that has changed nothing |
| Posixfs.Checker.FixAttribute | opencloud/pkg/command/posixfs_consistency.go:181-276 | Compares and writes one attribute, counting the write |
| Posixfs.Checker.CheckNodeAttributes | opencloud/pkg/command/posixfs_consistency.go:181-216 | Parent ID, name and, for files, blob size of one node |
| Posixfs.DecimalIsRead | opencloud/pkg/command/posixfs_consistency.go:261-261 | The digits that are stored as a size are read back as that size |
| Posixfs.Checker.WalkNodes | opencloud/pkg/command/posixfs_consistency.go:149-176 | The walk fixes what is wanted below a directory and returns how much was wrong |
| Posixfs.FixIsRight | opencloud/pkg/command/posixfs_consistency.go:181-276 | Afterwards everything wanted is there, and the count is the number of attributes that were wrong |
| Posixfs.WantsDistinct | opencloud/pkg/command/posixfs_consistency.go:149-176 | No attribute of the tree is wanted twice |
| Posixfs.WantsSame | opencloud/pkg/command/posixfs_consistency.go:166-173 | Fixing attributes does not change which nodes are reached |
| Posixfs.ReachedIsWanted | opencloud/pkg/command/posixfs_consistency.go:149-176 | Every node that a route through directories with an ID reaches past nothing ignored is wanted right |
| Posixfs.WantedIsReached | opencloud/pkg/command/posixfs_consistency.go:149-176 | And nothing else is |
| Posixfs.ReachedIsRight | opencloud/pkg/command/posixfs_consistency.go:149-276 | After a walk every reached node has the ID of its directory, its name and, as a file, its size |
| Posixfs.WalkIsRight | opencloud/pkg/command/posixfs_consistency.go:149-276 | The same with the frame: nothing else changed, and a second walk finds and changes nothing |
| Posixfs.OldestIsFirstLeast | opencloud/pkg/command/posixfs_consistency.go:361-392 | The oldest entry is the first with the least time before the sentinel, or none |
| Posixfs.Checker.GatherAttributes | opencloud/pkg/command/posixfs_consistency.go:353-396 | The entries that have a parent ID, their IDs, and the oldest, or the zero value if none is before the sentinel |
| Posixfs.StrippedAt | opencloud/pkg/command/posixfs_consistency.go:398-421 | Exactly what lies at or below an entry with another parent ID loses its attributes |
| Posixfs.Checker.SetAllParentIDAttributes | opencloud/pkg/command/posixfs_consistency.go:398-421 | The loop strips every entry under another ID |
| Posixfs.Checker.FixSpaceID | opencloud/pkg/command/posixfs_consistency.go:325-351 | And gives the space its two IDs |
| Posixfs.Checker.CheckSpaceID | opencloud/pkg/command/posixfs_consistency.go:104-147 | Without consent, or where all direct entries have the same parent ID, nothing changes and no restart is asked for; otherwise the space is unified |
| Posixfs.OneParentIff | opencloud/pkg/command/posixfs_consistency.go:104-147 | At most one ID is gathered exactly when no two direct entries that are not ignored have different parent IDs |
| Posixfs.Checker.CheckNodes | opencloud/pkg/command/posixfs_consistency.go:309-321 | Walks with the space's ID, if it has one |
| Posixfs.Checker.CheckSpace | opencloud/pkg/command/posixfs_consistency.go:83-102 | The two checks in turn; nothing for what is not a space; a user who declines keeps every ID and every attribute there is; any change asks for a restart |
| Posixfs.MergeUnifies | opencloud/pkg/command/posixfs_consistency.go:104-147 | After an accepted merge the space's ID, its space ID and, if and only if it is not empty, every entry's parent ID are the oldest entry's original parent ID |
| TreeSize.Storage.WalkTree | opencloud/pkg/command/decomposedfs.go:124-175 | Succeeds exactly when everything can be read, with the sum of all blobs wrapped to 64 bits, repair or not; writes only right sizes, nothing without repair; with repair and unique ids every container below holds its own sum; counts the mismatches |
| TreeSize.Storage.VisitChild | opencloud/pkg/command/decomposedfs.go:135-172 | What a child of each type adds |
| TreeSize.Storage.VisitContainer | opencloud/pkg/command/decomposedfs.go:137-161 | A container below, walked, compared and repaired |
| TreeSize.Storage.Check | opencloud/pkg/command/decomposedfs.go:104-121 | The root step: after a repair its size is the sum if the walk succeeded and 0 otherwise, which is right if and only if it succeeded or the sum is 0 |
| TreeSize.Storage.RepairAndCheck | opencloud/pkg/command/decomposedfs.go:64-122 | After a repair every container holds the sum of its own subtree and another check finds nothing wrong |
| TreeSize.WalkedConcat | opencloud/pkg/command/decomposedfs.go:135-172 | Walking some containers and then others does what walking all does |
| TreeSize.RepairsApart | opencloud/pkg/command/decomposedfs.go:135-172 | With unique ids one repair leaves another alone |
| TreeSize.TotalIsSumOfChildren | opencloud/pkg/command/decomposedfs.go:134-172 | Every child counts once, whatever the order of the listing |
| TreeSize.TotalIsSumOfFiles | opencloud/pkg/command/decomposedfs.go:134-172 | The total is the sum of the blobs over a listing of all routes to files, each once |
| TreeSize.CompleteIsReadable | opencloud/pkg/command/decomposedfs.go:134-161 | A walk that succeeds could read every node that a route leads to |
| TreeSize.IncompleteIsUnreadable | opencloud/pkg/command/decomposedfs.go:134-161 | And one that fails met a node that it could not read |
| TreeSize.ContainersAreReached | opencloud/pkg/command/decomposedfs.go:137-161 | The containers of a repair are nodes that a route leads to |
| TreeSize.ReachedAreContainers | opencloud/pkg/command/decomposedfs.go:137-161 | All of them |
| TreeSize.WrapIs | opencloud/pkg/command/decomposedfs.go:124-175 | Sums below 2^64 are kept, larger ones lose their upper bits |
| Text.Split | pkg/oidc/claims.go:24-24 | Cutting at a separator never gives an empty list, at an empty one as many pieces as characters |
| Text.PiecesAreLeftmost | pkg/oidc/claims.go:24-24 | No piece contains the separator, and a piece with the separator behind it contains it only there, so the cuts are the leftmost |
| Text.JoinSplit | pkg/oidc/claims.go:24-24 | Splitting loses nothing |
| Markdown.WriteContent | pkg/markdown/markdown.go:53-71 | The loop writes the document and counts its bytes |
| Markdown.NewMD | pkg/markdown/markdown.go:93-130 | The loop with its carried content equals the recursive reading |
| Markdown.HeadingsCollect | pkg/markdown/markdown.go:93-130 | The next heading read is that of the next part with a header and holds all text up to the part behind it; text of parts without a header goes to the next heading that has one |
| Markdown.ParseIsNormal | pkg/markdown/markdown.go:93-140 | Whatever is read has single-line headers without `#`, contents in which no line starts a heading, and ends every content but the last with a newline |
| Markdown.NormalRoundTrip | pkg/markdown/markdown.go:53-140 | Every such document is read back as it was written |
| Markdown.ReadWriteRead | pkg/markdown/markdown.go:53-140 | Reading, writing and reading again gives what was read first, for every text |
| Markdown.UnchangedIff | pkg/markdown/markdown.go:53-140 | Reading and writing leaves a text as it is exactly when it was written from such a document |
| Markdown.LevelIsLeadingMarksIff | pkg/markdown/markdown.go:133-140 | The level is the number of leading marks if and only if the heading has no other mark |
| Claims.SplitWithEscaping | pkg/oidc/claims.go:23-33 | The backwards loop that edits and shortens its list equals a fold from the right |
| Claims.MergedIsGrouped | pkg/oidc/claims.go:26-31 | Which is grouping the raw pieces from left to right |
| Claims.EmptyIff | pkg/oidc/claims.go:23-33 | The result is empty only for an empty text and an empty separator, so that the last index of `WalkSegments` exists |
| Claims.SplitPath | pkg/oidc/claims.go:23-33 | Splitting an escaped and joined path gives its segments, each that ends in the escape merged with the next |
| Claims.RoundTripIff | pkg/oidc/claims.go:23-33 | So the round trip holds if and only if no segment but the last ends in the escape |
| Claims.WalkSegments | pkg/oidc/claims.go:36-56 | The loop finds the value at the path, or fails where a segment does not lead into an object |
| Claims.AtConcat | pkg/oidc/claims.go:36-56 | A path reaches what its first part and then its second part reach |
| Claims.ReadStringClaim | pkg/oidc/claims.go:59-76 | The claim under the whole path as a name, else the one the path leads to, else an error |
| Claims.ReadsAnyPath | pkg/oidc/claims.go:59-76 | Every non-empty string claim can be read by writing its segments as an escaped path |
| Claims.AnyMapByName | pkg/oidc/claims.go:41-50 | A map with keys of any type can be walked into exactly when all keys are strings, and then by them |
| Claims.NestedIsRead | pkg/oidc/claims.go:59-76 | A string nested in claims under some segments, in maps of either kind, is read by their escaped path |
| Cache.WritesAreLast | pkg/sync/cache.go:48-68 | The plain map of writes holds for a key what the last operation on it left |
| Cache.WritesOnlyStored | pkg/sync/cache.go:48-68 | And nothing for a key without an operation |
| Cache.LengthIsSizeIff | pkg/sync/cache.go:35-45 | Below 2^64 `length` is at least the number of entries, and equal to it if and only if no Load has removed an expired one |
| Cache.DroppedStaysCounted | pkg/sync/cache.go:35-45 | Storing an entry and looking for it after it has expired leaves length 1 and no entry |
| Cache.GoodKeys | pkg/sync/cache.go:35-45 | A key can be loaded exactly when the cache holds an entry for it that has not expired, and then with the last write |
| Cache.AliveUntilExpiration | pkg/sync/cache.go:92-94 | What is stored can be loaded up to and at the instant it expires, and never after |
| Cache.GoodWithout | pkg/sync/cache.go:35-45 | Dropping an expired entry loses nothing that could be loaded, with or without counting it |
| Cache.GoodRemoved | pkg/sync/cache.go:70-89 | Deleting and evicting keep the cache a mirror of the last writes, and the counter follows |
| Cache.GoodStored | pkg/sync/cache.go:48-67 | So does storing |
| Cache.CountedUpDown | pkg/sync/cache.go:65-75 | The 64-bit counter follows a number that is positive whenever it goes down, so it never wraps below zero |
| Cache.Cache.constructor | pkg/sync/cache.go:25-32 | An empty cache; a negative capacity wraps |
| Cache.Cache.Load | pkg/sync/cache.go:35-45 | Finds an entry exactly when the last write of the key was a store that has not expired, with its value; drops an entry exactly when it has expired, and nothing else |
| Cache.Cache.Delete | pkg/sync/cache.go:70-78 | Removes the key; true exactly when an entry was there, so always for what could be loaded |
| Cache.Cache.Evict | pkg/sync/cache.go:81-89 | Removes expired entries only, and every entry that had expired when it began |
| Cache.Cache.Get | pkg/sync/cache.go:53-53 | A pooled or new entry that no Load has ever handed out |
| Cache.Cache.Store | pkg/sync/cache.go:48-67 | Adds the write to the history; above the capacity, and only there, sweeps the expired entries first; and changes no entry handed out before except the live one of the key |
| Cache.Cache.Insert | pkg/sync/cache.go:53-66 | The part of it after the eviction |

## Left out

- Goroutines of `RunAsync` of a group are the same protocol without a context; that its caller keeps receiving from the result channel is taken for granted.
- GroupProtocol.StepKeepsGroupInv: runners of a group are started only by the group, since a second start panics in the caller; anyone may interrupt any runner or the group at any time.
- Real time: a timer that is armed may fire at any later step; durations are only carried along.
- What tasks and stoppers do: a task may end at any time or never; liveness results say where they rely on stoppers that return.
- Parser expression kinds that the KQL grammar does not use: code predicates, recovery and throw expressions, state changes, and the option to stop after a number of expressions.
- UTF-8 decoding: input is a sequence of runes, and no literal may contain U+FFFD.
- PegParser.Parser.ParseCharClassMatcher: case-insensitive and Unicode classes, which the KQL grammar does not use.
- PegParser.Parser.ParseLitMatcher: case-insensitive literals, which the KQL grammar does not use.
- PegParser.Parser.Parse: recovery from panics, error messages, the position of a syntax error and the record of the farthest failure; `Build` either returns nodes or not.
- Values that stand for a failed action are nil in the model, where Go has a typed nil; a query with such an error is rejected either way.
- The case of operator or date lists in `toNodes` calls itself with the same argument; no action of the grammar produces it at that place, since the range of dates is a list of nodes.
- Conversion of dates and numbers (jinzhu/now, strconv) are parameters of the KQL model; dates and numbers stay text.
- Lower case is that of ASCII letters, which is all that keys are made of.
- KqlRoundTrip.WrittenIsRead: free words with other runes than letters or that begin with AND, OR or NOT, text values that begin like a time, a period or a truth, colons around free text, and blanks before a closing parenthesis are not among the items that are written; what such queries can yield is stated by `KqlAccepted.AcceptedIsWritten`.
- KqlAccepted.AcceptedIsWritten: a query can be spelled like different items (`a:b` as a key and a text, or as two words); which one it is read as is stated by `KqlRoundTrip.WrittenIsRead`.
- Connect.ConnectedTwice: the operator for equal keys must be AND or OR, which is how the connector is always made.
- Positions and source texts of nodes, other than the mark of an inserted operator.
- Producing backup events (file listing, metadata parsing, blob stores) and printing the report.
- Backup.OrderIsIrrelevant: requires unique events, an assumption about the storage that the producers do not ensure (two symlinks to one node give two link events for it), and no stray link, which is the exact condition.
- Globbing and walking in `revisions.go`, purging, the version pattern (a parameter) and paths as joined strings (a path is a list of names).
- Revisions.EveryScheduleLists: a send on the output is always possible, that is, the consumer keeps receiving; without it the listing waits for ever.
- Partial listings of folders that fail to be read.
- Posixfs.Checker.FixAttribute: writing an attribute always succeeds.
- Posixfs.Checker.CheckNodeAttributes: checksums are not recalculated, which needs the contents of files.
- Posixfs.Checker.WalkNodes: a directory that cannot be read is not modelled.
- Posixfs.Checker.FixSpaceID: the owner's index file is not rewritten.
- The check of a single entity and the loops over all spaces, which only call what is modelled.
- TreeSize.Storage.RepairAndCheck: requires unique ids and readable metadata; what a failed walk leaves behind is stated by `WalkTree` and `Check`.
- TreeSize.Storage.WalkTree: a failing write of a size is not modelled; the source ignores it.
- Markdown.WriteContent: errors of the writer.
- The table of contents of a Markdown document.
- Claims.WalkSegments: the source panics without segments; here at least one is required, which `EmptyIff` shows for `ReadStringClaim`.
- Cache.Cache.Load: operations are taken one at a time; the source fills a new entry after publishing it, so that concurrent readers may see less.
- The garbage collector may empty the pool at any time; an entry from the pool is as good as a new one, so nothing depends on it.
- Services, configuration, command lines, network and storage drivers.
