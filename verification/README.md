# Verified model of the agent pipeline tool

A Dafny model of the parts of the repository where correctness is hardest to see: the lease lock that any number of
processes share, the gate scheduler, the identity hash's canonical text, the two readers of one schema, the dependency
searches, the SQL tokenizer and the schema model it feeds, the way a run chooses its gates, the incremental file
search, and the printing and splitting of shell words. `dafny verify dfyconfig.toml` checks everything.

Code that works step by step is modelled step by step: `LockDirectory.Directory` and `LockDirectory.Call` are the lock
directory and the calls that update it, `SchedulerLoop.Loop` is the scheduler's loop with its mutable sets,
`MigrationParser.Parser` is the object whose methods rewrite the schema model, and so on. Each such method is proved
equal to a step function, and the theorems are about runs of those functions.

## How the files go together

- **Lease lock.** `LockStore` is one file operation of one call; `LockDirectory` performs it in place; `LockSafety`
  interleaves any number of calls with time and the death of processes and proves mutual exclusion, that a lost lease
  never comes back and that a live one is never stolen; `LockAccidents` shows, with one run each, that the three
  branches left out of calm runs (takeover of an unreadable file, forced release, broken mutex) really break exclusion;
  `LockProgress` says what each operation does undisturbed, so the premises of the safety theorems are met by real runs.
  `TicketNames` and `LockQueue` are the FIFO queue in front of the lock.
- **Dependency graphs.** `Graphs`, then `TaskGraph` (specs) and `GateGraph` (gates): the depth-first searches accept
  exactly the closed acyclic graphs, and ordering, which has no cycle check of its own, ends because of it.
- **Scheduler.** `Scheduler` has the pass, the two turns of a completion and the invariant; `SchedulerRuns` the theorems
  over every completion order; `SchedulerStalls` which states stall and which lists never do; `StallingPlans` which plans
  can, by what their gates end with; `SchedulerLoop` the loop itself with its termination.
- **Which gates run.** `GateSelection`, `GateScope`, `GateSpread`: rules, selection, stage, scope closure, the deal over
  stacks, and that whatever is left meets the scheduler's demands.
- **Identity.** `CanonicalJson` prints, `CanonicalText` proves that no two trees print alike, `CanonicalIdentity` that
  texts are equal exactly when values mean the same, `CanonicalReader` that a JSON reader gets that meaning back.
- **Schemas.** `Schemas` has each builder's published schema and parser, `SchemaWalker` the walker over the published
  one, `SchemaPlaces` that it reports exactly the keywords violated, where they are,
  `SchemaAgreement` when the two accept the same values, `SchemaParsing` exactly when parsing settles at once,
  `SchemaResults` what a parsed value is.
- **SQL.** `Tokenizer`, `TokenizerLoop`, `TokenizerLayout` (lossless layout), `TokenizerReading` (the layout decides the
  tokens), `Splitting` (statements, parts, groups), `SchemaModel`, `MigrationParser`, `SchemaIntegrity` (what every
  statement keeps), `SchemaEffects` (what each statement does).
- **Small ones.** `FileWatch`, `ShellWords` and `ShellLines` (the grammar of command lines); `Options` and `Texts` hold
  shared types.

## What turned out false, and when exactly it is true

- The scheduler can stop with gates pending on a closed acyclic list: one pass does not come back to a gate listed
  before a dependency that the same pass blocks later. `StallingPlans.LateDependencyStalls` is such a run.
  `SchedulerStalls.StallsExactlyWhen` says exactly which states stall, before the pass; `StallingPlans.CanStallExactly`
  which plans can, by the verdicts of their gates, where gates need not wait for each other; and
  `SchedulerStalls.NeverStalls` with `StallingPlans.NeverStallsExactly` which lists never do, whatever fails: those where
  each gate hears of the dependencies of its dependencies. Listing gates after their dependencies is enough, and so is
  repeating in a gate the dependencies of any dependency listed later. With fail-fast no list stalls.
- Walker and parser differ on an enumeration that lists a text with a NUL, and where the parser takes an absent part
  that the walker does not. `SchemaAgreement.AgreesExactly` is the exact condition without unions;
  `SchemaAgreement.WalkerAgrees` covers unions one way.
- Parsing twice may differ from parsing once under a union (`SchemaParsing.UnionUnsettled`): exactly when an earlier
  branch takes, and changes, what a later one made of a value that it had refused. `SchemaParsing.UnionSettlesAtExactly`
  and `UnionSettlesExactly` say so of one union, `ParseSettles` of whole schemas, and `ApartSettles` gives a condition
  read off the schema.
- Dropping a column whose name is no regular expression throws after the column is gone and before its indexes are:
  `SchemaIntegrity.DropExactly` says when the model survives, `SchemaIntegrity.DropLeavesIndex` is a case where it does not.
- Renaming a table to a new name and back restores the model exactly when its schema's name holds no dot, because keys
  are cut at their first dot: `SchemaIntegrity.RenameBackExactly`, and `SchemaIntegrity.DottedRenameMoves` for a dot.
- More than a thousand tickets in one millisecond can sort after the next millisecond's first:
  `TicketNames.SpillOverMisorders`.
- A watch for the empty text answers false while there is no file, although any bytes hold it: `FileWatch.SearchIsExact`.

## Model

| member | source | states |
|---|---|---|
| `LockDirectory.Directory.CreateExclusive` | src/lock/store.ts:232-238 | exclusive create: a descriptor of a new empty file exactly when no file was there, nothing changed otherwise |
| `LockDirectory.Directory.WriteThrough` | src/lock/store.ts:239-244 | a write through a descriptor reaches the lock path only while its own file is still there |
| `LockDirectory.Directory.MakeMutex` | src/lock/store.ts:179-182 | the mutex is entered exactly when it is free |
| `LockDirectory.Call.TakeoverStep` | src/lock/store.ts:204-219 | judging, waiting, re-checking, unlinking and leaving, each one step of the protocol on the directory |
| `LockDirectory.Call.CreateStep` | src/lock/store.ts:220-247 | create and write as two separate steps of the protocol |
| `LockDirectory.Call.RenewStep` | src/lock/store.ts:250-265 | check, stamp, rename and leave of a renewal |
| `LockDirectory.Call.ReleaseStep` | src/lock/store.ts:268-289 | check of the owner, unlink and leave of a release |
| `LockSafety.RunKeeps` | src/lock/store.ts:165-289 | the protocol invariant holds in every state of every calm run, for any number of calls and processes |
| `LockSafety.MutualExclusion` | src/lock/store.ts:202-289 | in every reachable state at most one token has an unreleased, unexpired lease of a live owner, and the lock file holds exactly its last record |
| `LockSafety.LostStays` | src/lock/store.ts:250-289 | no step brings a token back into the lock file once it has left it |
| `LockSafety.LostForever` | src/lock/store.ts:250-289 | a lost lease is never in force again, however the run goes on |
| `LockSafety.LostCannotWrite` | src/lock/store.ts:250-283 | a renewal or release with a lost token changes neither file nor lease and goes on to leave |
| `LockSafety.NeverStolen` | src/lock/store.ts:203-284 | the only step that takes a live lease out of the file is a release asked with its own token, or from its owner's host with its owner's pid |
| `LockSafety.ReleaseChecksExactly` | src/lock/store.ts:268-284 | what a release finds decides it: it unlinks the record of its token, or of one of its pids on its own host, or anything when forced; otherwise it leaves |
| `LockSafety.JudgesExactly` | src/lock/store.ts:165-208 | what a try finds decides it: no file, a lease past its expiry or of a process of this host known to be dead, an unreadable file past its grace, or a refusal |
| `LockSafety.BreaksExactly` | src/lock/store.ts:183-189 | the mutex is broken only by a live call that waits for it, once it is held for more than ten seconds, and nothing else changes |
| `LockSafety.TakeoverTakesTheJudged` | src/lock/store.ts:209-214 | a takeover unlinks the very record judged stale, whose lease is over; any change in between defeats it |
| `LockProgress.CreateAlone` | src/lock/store.ts:220-247 | undisturbed, a call that finds no file ends with its record in the file and a lease, and nothing else changed |
| `LockProgress.TakeOverAlone` | src/lock/store.ts:203-219 | undisturbed, a call that meets an expired record, or one of a dead process of its host, removes it, gives the mutex back and is ready to create |
| `LockProgress.RefusedAlone` | src/lock/store.ts:204-208 | a call that meets an unexpired record of no dead process of its host, or an unreadable file within its grace, leaves everything as it was |
| `LockProgress.RenewAlone` | src/lock/store.ts:250-265 | undisturbed, the holder's renewal replaces exactly heartbeat and expiry of the record in the file |
| `LockProgress.LateRenewalAlone` | src/lock/store.ts:252-253 | a renewal with another token leaves everything as it was |
| `LockProgress.ReleaseAlone` | src/lock/store.ts:268-279 | undisturbed, a release with the record's token, or with its pid from its host, removes the file and ends the lease |
| `LockProgress.OthersReleaseAlone` | src/lock/store.ts:270-284 | an unforced release with another token, and from another host or with other pids, leaves everything as it was |
| `LockAccidents.ForcedReleaseBreaksExclusion` | src/lock/store.ts:280-283 | a run with a forced release reaches two leases in force: the premise is needed |
| `LockAccidents.UnreadableTakeoverBreaksExclusion` | src/lock/store.ts:168-168 | a run that takes over an empty file past its grace reaches two leases in force |
| `LockAccidents.BrokenMutexBreaksExclusion` | src/lock/store.ts:184-189 | a run that breaks a stale mutex reaches two leases in force |
| `TicketNames.TicketClock.Stamp` | src/lock/store.ts:297-299 | the stamp of a ticket and the two module counters after it |
| `TicketNames.NamesSortAsStamps` | src/lock/store.ts:300-300 | below ten to the seventeenth, padded names compare as strings exactly as their stamps compare as numbers |
| `TicketNames.NamesHaveSeventeenDigits` | src/lock/store.ts:300-300 | up to ten to the seventeenth a stamp is written with seventeen digits |
| `TicketNames.StampFollows` | src/lock/store.ts:297-299 | a stamp exceeds the previous one exactly in the same millisecond or when its tickets did not spill over |
| `TicketNames.StampsIncrease` | src/lock/store.ts:291-303 | with a clock that does not go back and at most a thousand tickets a millisecond, any two stamps are in creation order |
| `TicketNames.SpillOverMisorders` | src/lock/store.ts:297-300 | beyond that bound a later ticket can sort first: the 1002nd of one millisecond, counted from any earlier state, after the first of the next |
| `LockQueue.RunKeeps` | src/lock/store.ts:306-406 | the queue invariant (who waits is listed, what was scanned is complete up to the cursor) holds over every run |
| `LockQueue.GrantsAreFifo` | src/lock/store.ts:322-406 | grants come in ticket order among tickets neither pruned nor given up, and none while an older ticket waits |
| `LockQueue.TurnAlone` | src/lock/store.ts:322-391 | one undisturbed turn goes on to try the lock exactly when the call's own ticket is the first that is neither stale nor the holder's |
| `LockQueue.PrunesExactly` | src/lock/store.ts:338-352 | looking at a ticket removes it exactly when it is there and stale, and no other |
| `LockQueue.EntersAndLeaves` | src/lock/store.ts:362-406 | a call enters, or enters again once pruned, behind every ticket issued; its ticket stays through its grant until it dequeues or gives up |
| `Graphs.RankedIsAcyclic` | src/lifecycle/contracts.ts:231-240 | finishing order of a search is a numbering that rules out cycles and missing nodes |
| `TaskGraph.DependencyCheck.Visit` | src/lifecycle/contracts.ts:231-240 | the recursive visit leaves its task done, told to be on a cycle, or told missing; every issue is genuine and told once |
| `TaskGraph.DependencyIssues` | src/lifecycle/contracts.ts:226-249 | every missing dependency is told, every task on a cycle shares it with a told one, each once and only true ones; nothing is told exactly on closed acyclic graphs |
| `TaskGraph.Ordering.Visit` | src/lifecycle/contracts.ts:293-294 | the visit without a visiting set ends, and puts a task after all its dependencies |
| `TaskGraph.TaskOrder` | src/lifecycle/contracts.ts:289-297 | validated tasks come back as a permutation with every dependency before its dependents; otherwise a repeated id, or a genuine cycle or missing task |
| `GateGraph.Search.Visit` | src/policy/policy.ts:89-94 | the throwing visit fails only on a graph with a cycle or a missing gate |
| `GateGraph.ValidateDag` | src/policy/policy.ts:85-96 | accepts exactly unique ids with a closed acyclic graph |
| `Scheduler.PassKeeps` | src/engine/scheduler.ts:27-43 | a pass over the pending gates keeps placement, exclusion and explained receipts |
| `Scheduler.WaitsExactly` | src/engine/scheduler.ts:32-32 | a gate with no failed dependency waits exactly for the bound, a running writer, readers when it writes, a dependency without receipt, or a running gate that has one of its resources |
| `Scheduler.AbortedPassCancels` | src/engine/scheduler.ts:29-31 | a pass after an abort blocks everything pending as cancelled and starts nothing |
| `Scheduler.SettleKeeps` | src/engine/scheduler.ts:35-38 | recording a receipt or an error keeps the invariant |
| `Scheduler.FinishKeeps` | src/engine/scheduler.ts:38-41 | giving back resources and the writer flag keeps the invariant |
| `SchedulerRuns.RunKeeps` | src/engine/scheduler.ts:26-46 | the invariant holds after every sequence of passes, completions and aborts |
| `SchedulerRuns.RunsAreExclusive` | src/engine/scheduler.ts:19-42 | in every state of every run: bound on running gates, writers alone, disjoint resources with `held` their union, started only after successful dependencies |
| `SchedulerRuns.DoneIsVerdict` | src/engine/scheduler.ts:27-41 | until an abort, each receipt is what the recursion "run if all dependencies succeeded, else blocked" gives |
| `SchedulerRuns.AbortsExactly` | src/engine/scheduler.ts:35-38 | a run is aborted exactly when it was from the start or from outside, or some gate has ended in an error, or with fail-fast in a receipt that is no success |
| `SchedulerRuns.FirstErrorStays` | src/engine/scheduler.ts:38-38 | the error a run is left with is that of the first gate that ended in one |
| `SchedulerRuns.NeverAborts` | src/engine/scheduler.ts:35-38 | without errors or an outside abort no run aborts, with fail-fast on as long as every gate would succeed |
| `SchedulerRuns.Confluence` | src/engine/scheduler.ts:10-54 | without an outside abort every completion order returns the same list, one verdict per gate in list order: without fail-fast always, with it when every gate would succeed |
| `SchedulerStalls.StallComesFromLateBlock` | src/engine/scheduler.ts:27-45 | a stalled pass left a gate pending that is listed before a dependency the same pass blocked |
| `SchedulerStalls.NeverStalls` | src/engine/scheduler.ts:44-45 | "cannot make progress" is unreachable when every gate hears, along dependencies listed in order, of the dependencies of its dependencies, or with fail-fast |
| `StallingPlans.NeverStallsExactly` | src/engine/scheduler.ts:27-45 | that premise is exact: of the lists of readers with room for all, exactly those never stall whatever fails |
| `StallingPlans.StallNeedsDeaf` | src/engine/scheduler.ts:27-45 | whatever the resources and the bound, a plan some run of which stalls has a deaf gate: failures behind it by the verdicts, none of which it hears of |
| `StallingPlans.CanStallExactly` | src/engine/scheduler.ts:27-45 | where gates need not wait for each other, the plans some order of completions makes stall are exactly those with a deaf gate |
| `SchedulerStalls.BlocksExactlyDoomed` | src/engine/scheduler.ts:29-31 | a pass without abort blocks exactly the pending gates with a failed dependency, or one listed earlier that is itself doomed |
| `SchedulerStalls.StallsExactlyWhen` | src/engine/scheduler.ts:27-45 | a state stalls exactly when nothing runs, there is no abort, some pending gate is not doomed, and each such gate has a dependency without a receipt |
| `StallingPlans.LateDependencyStalls` | src/engine/scheduler.ts:27-45 | a closed acyclic list of three gates with a run that stalls |
| `SchedulerLoop.Loop.MeetGate` | src/engine/scheduler.ts:27-43 | one gate met by the pass, on the mutable sets, is the step of the model |
| `SchedulerLoop.Loop.Sweep` | src/engine/scheduler.ts:27-43 | the whole pass over the mutable sets |
| `SchedulerLoop.Loop.FinishOne` | src/engine/scheduler.ts:38-41 | the clean-up callback of one gate |
| `SchedulerLoop.Loop.Drain` | src/engine/scheduler.ts:26-46 | the loop ends whatever the completion order, finished or stalled |
| `SchedulerLoop.PassShrinks` | src/engine/scheduler.ts:27-43 | the measure on pending and running gates that a pass never raises |
| `SchedulerLoop.Schedule` | src/engine/scheduler.ts:14-54 | the refusals, each exactly when; a stall only with a deaf gate, on a list where not every gate hears, without fail-fast; the thrown error, one receipt per gate in list order, and the verdicts where no gate's end can abort the run |
| `GateSelection.GateIssues` | src/config/load.ts:227-241 | the issues of a gate are exactly the rules it breaks: repeated or unknown dependencies, and ones that do not run wherever the gate does |
| `GateSelection.ConfigIssues` | src/config/load.ts:222-242 | all broken rules of the list, repeated ids included, and a cycle only where there are none; no issue exactly on accepted lists |
| `GateSelection.Selector.Include` | src/gates/run.ts:174-176 | the recursive growth adds exactly reachable gates and leaves the set closed |
| `GateSelection.SelectGates` | src/gates/run.ts:169-178 | refuses exactly unknown ids; otherwise the chosen gates in configuration order, and those nobody asked for |
| `GateSelection.ChosenIsLeast` | src/gates/run.ts:174-177 | the chosen set is the least that holds the asked gates and is closed under dependencies |
| `GateSelection.StagedClosed` | src/gates/run.ts:216-221 | what a stage keeps of a closed selection is closed, thanks to the configuration's stage rules |
| `GateSelection.ClosedPartSchedulable` | src/engine/scheduler.ts:15-15 | a closed part of an accepted configuration passes the scheduler's validation |
| `GateScope.ScopePlan.RequiredBy` | src/gates/proof-scope.ts:364-374 | the search with a shared seen set finds a required dependent, or has seen every dependent and none is required |
| `GateScope.ScopePlan.NeededNow` | src/gates/proof-scope.ts:364-374 | the search succeeds exactly when a required gate depends on this one, directly or not |
| `GateScope.ScopePlan.Close` | src/gates/proof-scope.ts:375-380 | in any order of the decisions, a dispensed gate ends required exactly when a gate required at the start needs it |
| `GateScope.RequiredIsClosed` | src/gates/proof-scope.ts:362-380 | after the loop the required gates, undeclared ones included, are closed under dependencies |
| `GateScope.RunsExactly` | src/gates/run.ts:184-251 | at the task stage what is not reserved for the full one runs, at the full stage what is required |
| `GateScope.RunnableClosed` | src/gates/run.ts:233-251 | the gates left after stage and scope are closed under dependencies |
| `GateSpread.PlanSpread` | src/gates/spread.ts:40-54 | the k-th movable gate of a stack goes to stack k modulo their number, the others to the first; copies hold exactly the gates moved away |
| `GateSpread.PlacedExactly` | src/gates/spread.ts:42-48 | a gate goes to the stack whose place is the number of such gates before it modulo their number exactly when it has no dependency and no dependent |
| `GateSpread.DealtEvenly` | src/gates/spread.ts:45-48 | of the movable gates of a stack, each of the distinct stacks is given the whole quotient of their number, or one more, the earlier ones first |
| `GateSpread.SpreadIsFair` | src/gates/spread.ts:42-55 | copies hold only gates without dependencies or dependents, each in one copy |
| `GateSpread.OneList` | src/gates/run.ts:563-564 | every gate that runs is in exactly one list of the spread |
| `GateSpread.SchedulerAlwaysServed` | src/gates/run.ts:169-251 | for every accepted configuration, list, stage and scope outcome, what runs and each of its groups meet the scheduler's demands, and the groups divide what runs |
| `GateSpread.PlanRun` | src/gates/run.ts:213-251 | the steps from configuration to groups composed: every gate that selection, stage and settled scope leave is in exactly one group, nothing else is, and each group can be scheduled; refusals name what is unknown |
| `CanonicalText.EscapeUnique` | src/domain/hash.ts:6-8 | quoted strings can be told apart from what follows them |
| `CanonicalText.PrintUnique` | src/domain/hash.ts:3-11 | what follows a printed value tells where it ends, numbers included |
| `CanonicalText.PrintInjective` | src/domain/hash.ts:3-11 | no two trees print to one text |
| `CanonicalIdentity.SortAscends` | src/domain/hash.ts:6-6 | sorting permutes the members so that each key comes before the next ones: at the first difference it ends or has the smaller unit |
| `CanonicalIdentity.CanonicalIsPrint` | src/domain/hash.ts:3-11 | the canonical text is the print of the sorted tree, and there is none exactly where the source throws |
| `CanonicalIdentity.CanonicalDecidesIdentity` | src/domain/hash.ts:3-11 | two values have one canonical text exactly when they are equal up to key order, the sign of zero and non-finite numbers as null |
| `CanonicalReader.CanonicalReadsBack` | src/domain/hash.ts:3-11 | a reader by the grammar of JSON (RFC 8259) takes the whole canonical text and finds the value's meaning, keys ascending in every object |
| `CanonicalReader.EscapedOnlyWhereNeeded` | src/domain/hash.ts:6-8 | only quotes, backslashes, controls and lone surrogates are escaped, seven of them in short form, the others by their code in lower case |
| `CanonicalReader.PairsStayWhole` | src/domain/hash.ts:6-8 | a surrogate pair is written as it is |
| `Schemas.ParseRecordLoop` | src/domain/schema.ts:73-84 | the loop that fills a record's result is the parser of its entries |
| `Schemas.ParseShapeLoop` | src/domain/schema.ts:105-110 | the loop over an object's shape is the parser of its properties |
| `SchemaWalker.ListIssues` | src/domain/issues.ts:46-111 | the recursive walk pushes exactly the violations, in order |
| `SchemaWalker.ListProperty` | src/domain/issues.ts:91-96 | missing, optional, defaulted and present properties |
| `SchemaPlaces.DocumentIssuesAreGenuine` | src/domain/issues.ts:46-111 | the issues of a document are exactly its violations: path and schema followed down together lead to a value that breaks the keyword named, or to a required property that is absent; none exactly when the document satisfies the schema |
| `SchemaPlaces.IssuesExactly` | src/domain/issues.ts:46-111 | the same for any part of a document, below the path of that part |
| `SchemaPlaces.NoneWhenMet` | src/domain/issues.ts:46-111 | no issue exactly when the value satisfies the schema keyword by keyword, with some branch for branches |
| `SchemaAgreement.AcceptedParses` | src/domain/issues.ts:113-119 | a value without issues parses, for every schema with valid defaults |
| `SchemaAgreement.WalkerAgrees` | src/domain/issues.ts:46-111 | on agreeing schemas, unions included, walker and parser accept the same present values, and which of them takes an absent one |
| `SchemaAgreement.AgreesExactly` | src/domain/schema.ts:13-113 | without unions and with values for every part, they agree on all present values exactly on those schemas |
| `SchemaAgreement.PlainAgrees` | src/domain/schema.ts:40-112 | schemas where only properties are optional and neither nullable nor union wraps a default are among them |
| `SchemaAgreement.NulInEnumDisputed` | src/domain/issues.ts:65-69 | a listed text with a NUL is parsed and yet reported |
| `SchemaAgreement.NullableOptionalDisputed` | src/domain/issues.ts:91-96 | an absent nullable optional property is parsed and yet reported |
| `SchemaAgreement.UnionDefaultDisputed` | src/domain/issues.ts:91-96 | an absent property whose union holds a default is parsed and yet reported |
| `SchemaAgreement.SchemaIssues` | src/domain/issues.ts:113-119 | with valid defaults the parser behind the walker catches nothing |
| `SchemaParsing.ParseSettles` | src/domain/schema.ts:13-113 | a parsed value parses to itself, on every schema in whose unions no result of a later branch is taken and changed by an earlier one |
| `SchemaResults.ParseKeepsTheValue` | src/domain/schema.ts:13-113 | everything present in a value comes back from parsing as it was and where it was; without defaults in the schema the result is the value itself up to key order and absent properties |
| `SchemaResults.ScalarUnchanged` | src/domain/schema.ts:14-95 | texts, numbers, booleans and null come back unchanged from every schema |
| `SchemaResults.ItemsOneByOne` | src/domain/schema.ts:64-72 | a list comes back item by item, in order |
| `SchemaResults.EntriesOneByOne` | src/domain/schema.ts:73-84 | a record comes back key by key, in order |
| `SchemaResults.ObjectPartByPart` | src/domain/schema.ts:96-112 | an object comes back with the keys of its shape in order, absent optional ones left out, each holding the result of its part |
| `SchemaResults.AbsentParses` | src/domain/schema.ts:28-95 | what an absent value parses to: the result of the outermost default's filling, absence under an optional, else nothing |
| `SchemaResults.PublishedTypeHolds` | src/domain/schema.ts:12-113 | a type is published for all but constants, nullables and unions, and everything the parser returns is of it |
| `SchemaResults.IntegersAreSafe` | src/domain/schema.ts:25-30 | integers are the whole numbers up to two to the fifty-third, less one |
| `SchemaParsing.UnionSettlesAtExactly` | src/domain/schema.ts:87-95 | where both branches settle at a value, the union does exactly when the first takes it, the second refuses it, or the first refuses the second's result or leaves it as it is |
| `SchemaParsing.UnionSettlesExactly` | src/domain/schema.ts:87-95 | a union of branches that settle everywhere settles everywhere exactly when nothing is retaken |
| `SchemaParsing.ApartSettles` | src/domain/schema.ts:87-95 | a condition read off the schema that grants it: branches of different sorts, or objects of which the first demands a property the second does not know |
| `SchemaParsing.UnionUnsettled` | src/domain/schema.ts:87-95 | a union with valid defaults that does not settle |
| `TokenizerLoop.EndOfComment` | src/db/tokenizer.ts:42-53 | the depth loop ends where the comment completes, with its lines counted, or at the end of the text |
| `TokenizerLoop.ReadQuoted` | src/db/tokenizer.ts:73-88 | the loop of a quoted text: value and closing place |
| `TokenizerLoop.ReadEscaped` | src/db/tokenizer.ts:56-72 | the loop of an escape string |
| `TokenizerLoop.Take` | src/db/tokenizer.ts:34-156 | one turn of the loop takes what the model takes from the front of the text |
| `TokenizerLoop.Tokenize` | src/db/tokenizer.ts:26-158 | the index loop returns the tokens, or the fault with its line |
| `TokenizerLayout.CommentMarks` | src/db/tokenizer.ts:42-53 | what is skipped as a block comment is one balanced nest of openings and closings, closed at its end and not before |
| `TokenizerLayout.EmitIsFormed` | src/db/tokenizer.ts:54-155 | each token has the form of its kind, is not cut short, and starts with nothing that another kind could start with; its newlines are counted |
| `TokenizerLayout.Lossless` | src/db/tokenizer.ts:26-158 | a text that tokenizes is its token texts woven with gaps of blanks and complete comments, each token on line 1 plus the newlines before it |
| `TokenizerReading.TokensAreTheLayout` | src/db/tokenizer.ts:26-158 | a text tokenizes into these tokens exactly when it can be laid out as them: the tokens of a text are determined, kinds, values and lines |
| `TokenizerReading.FaultIsThere` | src/db/tokenizer.ts:26-158 | where a text does not tokenize, on the line of the fault something opens, of the kind it names, that nothing in the rest of the text closes |
| `TokenizerLayout.LiteralIsOneToken` | src/db/live.ts:116-116 | a literal tokenizes to one string token of the value it was written from, for every value |
| `Splitting.SplitStatements` | src/db/tokenizer.ts:161-188 | statements are the longest nonempty runs without an ending semicolon, and nothing else of the list is lost |
| `Splitting.DepthIsBalance` | src/db/tokenizer.ts:169-170 | while no parenthesis closes too much, the counted depth is opening less closing |
| `Splitting.AtomicBodyIsWhole` | src/db/tokenizer.ts:171-179 | after `begin atomic` the body is open exactly until the first `end` no `case` since then accounts for, and nothing in it ends a statement |
| `Splitting.AtomicExactly` | src/db/tokenizer.ts:171-179 | an atomic body is open exactly where some `begin atomic` before has never had more `end` than `case` words since |
| `Splitting.DepthAboveLowest` | src/db/tokenizer.ts:169-170 | the counted depth is the height of the balance of parentheses above its lowest so far |
| `Splitting.EndsExactly` | src/db/tokenizer.ts:180-184 | which semicolons end statements: those in no atomic body where the balance is at its lowest so far |
| `Splitting.CutsSpelled` | src/db/tokenizer.ts:169-180 | the words and signs that nest and cut, spelled out, and that only words and only punctuation do so |
| `Splitting.SplitTopLevel` | src/db/parser.ts:41-57 | parts hold no separator at their own level 0, cuts are at such separators, and putting them back gives the list |
| `Splitting.Cursor.Group` | src/db/parser.ts:88-105 | the group is what is between a parenthesis and the one that closes it, or the rest of an open one, and the cursor moves past it |
| `MigrationParser.Parser.RenameTable` | src/db/parser.ts:325-338 | the three loops move every name of the table to its new key |
| `MigrationParser.Parser.RenameColumn` | src/db/parser.ts:379-397 | the column, the keys from and to the table, and its indexes |
| `MigrationParser.Parser.DropColumn` | src/db/parser.ts:340-347 | the column, then what used it, with the throw in between |
| `MigrationParser.Parser.ColumnDefinition` | src/db/parser.ts:233-281 | the column and the constraints written with it |
| `MigrationParser.Parser.TableConstraint` | src/db/parser.ts:283-319 | the index or key a table constraint makes or takes over |
| `MigrationParser.Parser.CreateTable` | src/db/parser.ts:205-231 | a new table and its elements in order |
| `MigrationParser.Parser.AlterTable` | src/db/parser.ts:354-441 | actions in turn on the table's current key, given up when one throws |
| `MigrationParser.Parser.DropTables` | src/db/parser.ts:486-497 | every table named, and what names it |
| `MigrationParser.Parser.Parse` | src/db/parser.ts:137-154 | the statements of a migration, one after the other |
| `SchemaIntegrity.RenamedTableSound` | src/db/parser.ts:325-338 | renaming to a new key keeps integrity |
| `SchemaIntegrity.RenamedColumnSound` | src/db/parser.ts:379-397 | renaming a present column keeps integrity |
| `SchemaIntegrity.ElementsSound` | src/db/parser.ts:205-231 | while a table is created, only columns still to be defined are missing, and none at the end |
| `SchemaIntegrity.DropExactly` | src/db/parser.ts:340-347 | a column drop keeps integrity exactly when its name compiles, looks like an expression or was not used |
| `SchemaIntegrity.DropLeavesIndex` | src/db/parser.ts:340-347 | a drop that does not: a column named like an open group leaves its index behind |
| `SchemaIntegrity.MigrationKeepsIntegrity` | src/db/parser.ts:165-497 | over any well-named statements, at each statement end indexes, keys and policies name present tables and columns |
| `SchemaIntegrity.DropTableForgets` | src/db/parser.ts:486-497 | nothing names a dropped table, and the rest is untouched |
| `SchemaIntegrity.RenameForgets` | src/db/parser.ts:325-338 | a renamed table is named by its new key only and keeps its columns |
| `SchemaIntegrity.DropColumnForgets` | src/db/parser.ts:340-347 | nothing of the table uses a dropped column |
| `SchemaIntegrity.DropConstraintForgets` | src/db/parser.ts:349-352 | exactly the keys and constraint indexes of the name go, plain indexes stay |
| `SchemaIntegrity.RenamedBack` | src/db/parser.ts:325-338 | renaming a table to a new key and back to its own restores the model |
| `SchemaIntegrity.RenameBackExactly` | src/db/parser.ts:362-369 | two `rename to` actions restore the model exactly when the schema's name has no dot |
| `SchemaIntegrity.DottedRenameMoves` | src/db/parser.ts:362-369 | a table of a schema with a dot in its name that two renames do not bring back |
| `SchemaEffects.SecurityIsTheLastSet` | src/db/parser.ts:425-428 | after an `alter table` the table, wherever renames have led, is under row level security, and forced, as the last performed setting says |
| `SchemaEffects.ActsOnOneTable` | src/db/parser.ts:354-441 | an action changes no table but its own and the one it is renamed to |
| `SchemaEffects.ActedColumns` | src/db/parser.ts:379-423 | the columns after each action: added unless there already, renamed, dropped, or as they were |
| `SchemaEffects.CreatedHasItsColumns` | src/db/parser.ts:205-231 | a created table has its schema, name and flags, exactly the columns defined and no row level security, and no other table changes; one that is there already stays when asked for |
| `SchemaEffects.CreatedHasItsConstraints` | src/db/parser.ts:218-319 | a created table adds exactly the keys and, where no index is taken over, the indexes of its elements, in their order |
| `SchemaEffects.ColumnsJoin` | src/db/parser.ts:304-314 | the columns in a default constraint name come in order, one underscore between any two |
| `SchemaEffects.ConstraintMakes` | src/db/parser.ts:283-319 | the one index or key a table constraint adds, with its kind, columns and default name |
| `SchemaEffects.ActedConstraints` | src/db/parser.ts:250-275 | an added column adds exactly the indexes and keys of the constraints written with it, with their kinds and default names, in order; a security setting adds none |
| `SchemaEffects.ClaimsTheFirst` | src/db/parser.ts:296-300 | the first index of the name on the table, and only it, becomes a unique constraint |
| `SchemaEffects.DropColumnLeaves` | src/db/parser.ts:340-347 | exactly the indexes and keys that neither use nor mention a dropped column stay, and everything of other tables |
| `SchemaEffects.ResolvesTo` | src/db/parser.ts:158-163 | a table name with a schema is that table, one without, or with an empty one, is a temporary table if there is one, else a public one |
| `SchemaEffects.ConstraintRenamed` | src/db/parser.ts:370-378 | keys and indexes of the name on the table are renamed, nothing else is |
| `SchemaEffects.ColumnRenamedEverywhere` | src/db/parser.ts:379-397 | the table's indexes and both ends of its keys follow a renamed column, nothing else changes |
| `SchemaEffects.IndexesDropped` | src/db/parser.ts:477-484 | exactly the indexes of the names given go |
| `SchemaEffects.FirstPolicyRenamed` | src/db/parser.ts:527-542 | the first policy of the name on the table, and only it, is renamed |
| `SchemaEffects.IndexAndPolicyEffects` | src/db/parser.ts:445-550 | what statements on indexes and policies add, rename and drop, and that they touch nothing else |
| `SchemaEffects.MigrationKeepsKinds` | src/db/parser.ts:165-497 | over any statements an index is unique exactly when it is more than a plain one, and a primary key has no condition |
| `FileWatch.Watcher.Check` | src/execution/wait.ts:58-80 | one look on the mutable offset and tail |
| `FileWatch.WindowSuffices` | src/execution/wait.ts:75-77 | the kept tail and the new bytes hold the text exactly when all bytes read so far do |
| `FileWatch.SearchIsExact` | src/execution/wait.ts:49-81 | on a file that only grows, up to the first true answer, each look is true exactly when the bytes read hold the text; for the empty text, exactly when it reaches a file that opens or holds nothing unread |
| `FileWatch.FoundInTime` | src/execution/wait.ts:72-76 | once the file stops growing, its text is found within the unread bytes over 4 MiB, rounded up |
| `FileWatch.WaitFor` | src/execution/wait.ts:94-110 | met at the first look that holds; unmet only after a last look at or past the deadline, which no earlier turn had reached |
| `ShellWords.SplitCommand` | src/db/live.ts:62-85 | the character loop returns the words, or the quotes left open |
| `ShellWords.DoubleReadsBack` | src/db/live.ts:70-75 | between double quotes a backslash escapes exactly quote, backslash, dollar and backquote |
| `ShellWords.BackslashedReadsBack` | src/db/live.ts:77-80 | outside quotes a backslash takes any unit as it is |
| `ShellWords.QuotedReadsBack` | src/commands/stack.ts:71-71 | a quoted argument is read as one word, whatever it holds and whatever follows |
| `ShellWords.LineSplitsBack` | src/db/live.ts:62-85 | splitting the quoted arguments joined by spaces gives the argument list back |
| `ShellLines.WordsAreTheItems` | src/db/live.ts:62-85 | a line splits into these words exactly when it is made of blanks, plain and escaped units and quoted texts that group into them |
| `ShellLines.OpenQuotesAreThere` | src/db/live.ts:83-83 | where a line does not split, quotes of the kind the error names open in it and are never closed |
| `ShellLines.PrintedAsItIs` | src/commands/stack.ts:71-71 | an argument is printed without quotes exactly when it is not empty and holds only letters, digits and the ten safe signs |

## Left out

- Lock: content and modification time of a file are read as one step, a partly written record counts as an empty file,
  process ids are not reused, one nondecreasing clock is shared, tokens are unique, leases last at least one millisecond.
- Lock: the audit log, sanitized names (two resources may share a lock), the 30 s limit on waiting for the mutex, and
  the polling delays; the theorems hold whatever the delays.
- `LockSafety.MutualExclusion`: does not cover takeover of unreadable files, forced release and mutex breaking, because
  each of them breaks it (`LockAccidents`).
- `LockQueue.GrantsAreFifo`: stamping a ticket and writing it is one step, and listing the queue's directory is an atomic
  snapshot; tickets are numbers, owners wait once, and the outcome of each try is arbitrary; the
  time-out and abort of a wait are one event.
- Scheduler: a promise's callbacks are two turns (settle, finish), and an outside abort may come between any two steps;
  what an execution does is an arbitrary outcome.
- `StallingPlans.CanStallExactly`: one way only (`StallNeedsDeaf`) where gates share resources, write, or outnumber the
  bound, because waiting for a resource may keep apart the completions that a stall needs to coincide.
- `TaskGraph.DependencyIssues`: duplicate dependencies, criteria and paths of a task are other rules of the same loop.
- `GateSelection.ConfigIssues`: only repeated ids, the rules of gates and the cycle check (src/config/load.ts:303), not
  ports, patterns, stacks and web sections, whose issues would also hold back the search for cycles; of repeated ids
  only that there are some.
- `GateSelection.SelectGates`: `added` is a set, its order is not modelled.
- Scope decisions before the closure (git differences, patterns, mentions, links) are arbitrary inputs.
- `GateSpread.PlanSpread`: refusals about variables and environment files, and the making of copies.
- `GateSpread.PlanRun`: refusals about an empty selection, a dirty tree and the number of stacks.
- `CanonicalIdentity.CanonicalDecidesIdentity`: a finite number is known by the digits the language prints for it;
  `toJSON`, big integers and sparse arrays are not modelled, nor is SHA-256.
- Schemas: patterns are predicates on texts (flag-free), objects are their own enumerable properties, messages are
  reduced to a path and a kind, `structuredClone` is the identity on values.
- `SchemaAgreement.WalkerAgrees`: with unions the condition is sufficient only, because one branch may accept what the
  other one disputes.
- `Tokenizer`: letters and numerals beyond ASCII and the folding of words are parameters.
- `Splitting.Cursor.Group`: the other moves of the cursor; statements reach `SchemaModel` already read.
- `SchemaModel`: locations, column types, policy clauses, functions, grants and types; an index without a name comes with
  its default one; what a pattern made from a column's name matches is a parameter.
- `SchemaIntegrity.MigrationKeepsIntegrity`: an `alter table` names what is there when each of its actions runs; only
  `create table` may name columns it defines later.
- `FileWatch.FoundInTime`: each look is granted a full read; `SearchIsExact` allows short ones.
- `FileWatch.WaitFor`: the clock is only required to go on between readings; the seconds reported, process states and
  signals are left out.
- Command modules, usage texts, git, `gh`, psql, Lighthouse, previews and environment handling: foreign calls and display.
