# Verified models of the sylar core

Dafny models of the parts of the sylar server framework in which something can go subtly
wrong, with proofs of what the code promises:

- **Log patterns** (`LogPattern`, `LogMeaning`, `Formatter`, `LogLaws`, `LogJoin`,
  `LogDirectives`, `LogSpelling`, `LogLines`). The pattern language as a grammar with exactly
  one reading for every string, including the malformed directives the scanner recovers from;
  the three-state scanner of
  `LogFormatter::init` and the rendering loop of `format`, proved against that reading; and
  the laws of the language: escaping, joining, printing and scanning back, what each directive
  prints, and the lines of the built-in patterns.
- **Fibers** (`FiberModel`, `FiberInvariant`, `FiberLaws`, `FiberOutcomes`, `FiberVariants`,
  `FiberRuntime`). Any number of threads and fibers as a state machine, one step per library call or callback
  step, with reference counts, saved contexts and the thread-local pointers. `FiberRuntime`
  is the library code with its assertions, proved to be that state machine.
- **Configuration** (`Yaml`, `ConfigTree`, `ConfigVariable`, `ConfigStore`, `ConfigPaths`,
  `ConfigRounds`, `ConfigChains`). Flattening a document, looking up and loading variables,
  and change notification, both in sequence and in any interleaving of concurrent `setValue` calls.
- **Loggers** (`LogDefines`, `LogDefineLaws`, `LogDefineReads`, `LoggerModel`, `LoggerHistory`,
  `LoggerAgreement`, `ConcurrentLoggers`, `Loggers`, `LoggerManagement`, `LoggerClients`).
  Conversion of logger definitions, delivery of events, and the listener that keeps live
  loggers in step with the `logs` variable: exactly when they are, after every update, run,
  document and interleaving.
- **Locks and threads** (`LockOrder`, `LibraryLocks`, `LockNesting`, `DeadlockFreedom`,
  `CasLock`, `ThreadStart`). The locks each operation takes, tied to the operations themselves
  by ghost traces in `Loggers`, `LoggerManagement`, `ConfigVariable` and `ConfigStore`;
  exactly when programs of library calls with user callbacks cannot deadlock, scoped guards over the compare-and-set lock, and the start of a thread.

`Options`, `Seqs` and `Numberings` hold what the others share. `dafny verify dfyconfig.toml`
checks everything.

## Rules for clients

The code does not assert all of its own rules; the model states them as guards of its steps.

- Fibers: `swapIn` only from the thread's main fiber, on a fiber of the same thread in
  INIT, HOLD or READY to which the caller holds a reference; yield only from a child;
  children are constructed from the main fiber and reset by their own thread; the resumer of a
  fiber keeps its reference while the fiber executes; ids stay below the 64-bit limit.
- Configuration: listeners may throw, but do not set the variable that calls them.
- Locks: it must be possible to number the configuration's locks so that user code that runs
  under one of them takes only locks with higher numbers. Where the read-write lock prefers
  readers, read locks that are released at once are exempt. `NeverDeadlocksIffNumbered` shows
  that this is exactly the condition. That callbacks merely stay out of their own variable is
  neither enough nor, for reading, necessary.
- Loggers: formatters handed to appenders are not null.

## Where the code differs from what one would expect

- The check at the end of the scanner takes the error branch when it ends in normal status
  with an empty literal. An empty pattern, and one that ends right after a directive's closing
  brace such as `%d{%Y}`, is therefore an error and prints the error text after the directive
  (`ClosingBraceAtEndIsAnError`).
- An appender that was attached to a logger always counts as having its own formatter, so
  a later `Logger::setFormatter` reaches none of the attached appenders
  (`Loggers.Logger.SetFormatter`).
- A listener that throws has been told of a value that is then not stored
  (`SetKeepsLinkedIffNobodyThrows`). If it comes behind the library's own listener on `logs`,
  the loggers have changed and the variable has not, and setting the stored value again does
  not bring them back (`AbortedUpdateLeavesLoggersAhead`). `UpdateAgreesIff` gives the exact
  condition for each logger, `RunAgreesIff` and `StaysInStepIffHarmless` lift it to runs.
- Concurrent `setValue` calls may announce changes from the same old value
  (`ConcurrentRoundsNeedNotChain`), and a listener that is added while a `setValue` is between
  its two locks may miss that change (`LateListenerMissesAWrite`).
  `InTouchIffOrderlyAndUndisturbed` gives the exact condition. On `logs` two such calls can
  leave a logger at one definition and the variable at the other (`ConcurrentUpdatesPartLoggers`).
- The logger's own pattern is the one part of a logger that remembers earlier definitions: an
  empty or erroneous pattern leaves the last accepted one in place (`PatternIsLastAccepted`).

## Model

| member | source | states |
|---|---|---|
| `LogPattern.ParseIsLegal` | sylar/log.cc:515-616 | Every string whatever is spelled by a legal list of pieces, malformed directives included |
| `LogPattern.LegalIsUnique` | sylar/log.cc:515-616 | A legal list of pieces is the only reading of the string it spells, so the grammar is unambiguous |
| `LogMeaning.AcceptedIffGenerated` | sylar/log.cc:515-616 | The accepted strings are exactly those generated by the grammar without malformed pieces, with known keys only, and not ending badly |
| `LogMeaning.TokensMeaning` | sylar/log.cc:492-499 | Rendering the token list of a pattern gives the same text as reading its pieces directly, for every event |
| `LogMeaning.ErrorIffNotGood` | sylar/log.cc:515-734 | The scanner's error flag together with the unknown-key check is set exactly for patterns with a malformed piece, an unknown key or a bad end |
| `Formatter.Scan` | sylar/log.cc:502-616 | The scanner loop produces exactly the token list of the grammar's reading, and its error flag exactly when the grammar finds a malformed piece or a bad end |
| `Formatter.BuildItems` | sylar/log.cc:699-734 | One item per token, and an error exactly if there was one or some key is not among the 13 known ones |
| `Formatter.LogFormatter.constructor` | sylar/log.cc:487-490 | The compiled items are those of the grammar's reading, and `isError` is false exactly for accepted patterns |
| `Formatter.LogFormatter.Format` | sylar/log.cc:492-499 | The text printed for any event is the direct reading of the pattern, error recovery included |
| `LogLaws.EscapedTextPrintsItself` | sylar/log.cc:515-616 | Doubling every percent sign of a non-empty text gives an accepted pattern that prints that text |
| `LogLaws.JoinPatterns` | sylar/log.cc:515-616 | Two accepted patterns of which the second does not continue the first's last directive join to an accepted pattern that prints both texts |
| `LogLaws.JoinCanFail` | sylar/log.cc:515-616 | A concrete pair of accepted patterns whose concatenation is an error |
| `LogJoin.JoinsIffDistributes` | sylar/log.cc:515-616 | Rendering distributes over joining two accepted patterns, for every event, if and only if the second does not begin with a letter or brace that continues a directive ending the first |
| `LogLaws.PrintThenScan` | sylar/log.cc:515-616 | Printing a normal-form token list and scanning the result gives the list back |
| `LogLaws.AcceptedIsNormal` | sylar/log.cc:515-616 | The tokens of every accepted pattern are in normal form |
| `LogLaws.ScanPrintScan` | sylar/log.cc:515-616 | For every accepted pattern scanning, printing and scanning again changes neither tokens nor the printed text |
| `LogLaws.ClosingBraceAtEndIsAnError` | sylar/log.cc:609-616 | The empty pattern and every pattern ending with a closed format is an error, and the latter prints the error text at its end |
| `LogDirectives.BareDirective` | sylar/log.cc:699-734 | For every key and event, what `%key` prints: a newline for n, a tab for T, the date in its default format for d, the event's field without a format for the ten others, and the error text with the key for any other; it is accepted exactly for the 13 listed keys |
| `LogDirectives.BracedDirective` | sylar/log.cc:699-734 | The same for `%key{fmt}` in front of any text: dates use the format or the default one if it is empty, file names get the format, the others ignore it |
| `LogDirectives.MalformedDirectives` | sylar/log.cc:515-616 | A stray or nested brace prints the error text for itself and again at the end of the pattern, an unclosed one only once |
| `LogDirectives.LettersAre` | sylar/log.cc:568 | Keys consist of the 52 ASCII letters |
| `LogLines.DefaultLine` | sylar/log.cc:284 | The default pattern is accepted and prints date, thread id, thread name, fiber id, level, logger name, file, line and message in this order, with tabs and a newline |
| `LogLines.RootPrints` | sylar/log.cc:754-766 | The initial root logger prints each event of level 1 or more once on the console with the coloured level and once to `root.log` with the plain one, field by field, and nothing below level 1 |
| `FiberInvariant.StepKeeps` | sylar/fiber.cc:36-215 | Every step allowed by the client rules, by any thread, keeps the invariant of the whole system: pointers, states, contexts, reference counts, counters and histories |
| `FiberLaws.OneRunningFiber` | sylar/fiber.cc:36-84 | In every run a thread with a main fiber runs exactly one fiber: its main fiber with no child in EXEC, or the unique EXEC child; the main fiber stays EXEC and resumes at its last `swapIn` |
| `FiberLaws.LinkedToOwnMain` | sylar/fiber.cc:73-77 | In every run of the `uc_link` build a child of a live thread is linked to that thread's main fiber, which exists and is saved right after the last `swapIn` while the child executes; the other build stores no link |
| `FiberLaws.ResetLinksRightIffOnOwnThread` | sylar/fiber.cc:107-126 | A reset links the child to the main fiber of its own thread if and only if it is made on that thread |
| `FiberLaws.DestructorAssertionsHold` | sylar/fiber.cc:86-105 | In every run a step that destroys a fiber meets the assertions of the destructor |
| `FiberLaws.WhoDestroys` | sylar/fiber.cc:86-105 | Only dropping the last handle or ending a thread destroys a fiber |
| `FiberLaws.StartedFiberHoldsItself` | sylar/fiber.cc:164-193 | A started and unfinished child holds one reference to itself, two while suspended, beyond those of its clients |
| `FiberLaws.LifeActions` | sylar/fiber.cc:164-193 | The actions in any sequence of events that a script allows are a prefix of that script |
| `FiberLaws.LifeCounts` | sylar/fiber.cc:107-143 | How often a fiber can be swapped in, yield, start and finish in such a sequence |
| `FiberLaws.ScheduleFollowsScript` | sylar/fiber.cc:107-143 | For every schedule a fiber's actions since construction or reset are a prefix of its script up to its saved position; swap-ins equal yields plus finish plus one if executing; the callback starts at most once |
| `FiberLaws.EveryEpochRanAPrefix` | sylar/fiber.cc:107-143 | The same for every earlier life of a fiber that was since reset or destroyed |
| `FiberLaws.CountersAreRight` | sylar/fiber.cc:14-15 | In every run the fiber counter is the number of live fibers, child ids are positive and distinct, main fibers have id 0 |
| `FiberLaws.ChildCanRun` | sylar/fiber.cc:50-84 | For every callback there is a run in which a child executes it, so the laws above are not empty |
| `FiberOutcomes.StateFollowsHistory` | sylar/fiber.cc:164-193 | In every run a child's state follows from its history: INIT if nothing happened, READY or HOLD right after the yield of that name, TERM after a callback that returned and EXCEP after one that threw, and the callback is gone exactly after a return |
| `FiberOutcomes.CallbacksCanFinish` | sylar/fiber.cc:107-193 | For any callbacks there is a run in which one fiber, reset in between, runs each of them to its end through all its yields |
| `FiberOutcomes.IdsAreConsecutive` | sylar/fiber.cc:50-51 | The child constructed after k others has the id k + 1, on whatever threads they were constructed |
| `FiberVariants.VariantsSimulate` | sylar/fiber.cc:195-214 | The build that returns through the stored `uc_link` and the build that swaps with the thread-local main fiber allow the same runs and end in the same states, counts, current fibers and resumed contexts |
| `FiberRuntime.Runtime.NewMain` | sylar/fiber.cc:36-48 | A new main fiber is in EXEC without stack, callback or id, and becomes the current fiber |
| `FiberRuntime.Runtime.GetThis` | sylar/fiber.cc:149-162 | The caller gets a counted reference to the current fiber, which is made if there is none; the assertion on the new main fiber holds |
| `FiberRuntime.Runtime.Construct` | sylar/fiber.cc:50-84 | A new child has the next id, a callback, one reference and, in the `uc_link` build, the main fiber as its link; the assertions that a main fiber exists and is current hold |
| `FiberRuntime.Runtime.Reset` | sylar/fiber.cc:107-126 | A finished or unstarted child starts a new life with the new callback and a link to the calling thread's main fiber |
| `FiberRuntime.Runtime.SwapIn` | sylar/fiber.cc:128-135 | The thread's own code is saved in its main fiber and the child's saved position is resumed |
| `FiberRuntime.Runtime.SwapOut` | sylar/fiber.cc:137-143 | The child's position is saved and the main fiber is current and resumed |
| `FiberRuntime.Runtime.EnterMainFunc` | sylar/fiber.cc:180-184 | The callback starts at its beginning with a reference held by its own frame |
| `FiberRuntime.Runtime.YieldTo` | sylar/fiber.cc:164-174 | A yield suspends the child in READY or HOLD with a reference held by the yield frame |
| `FiberRuntime.Runtime.LeaveMainFunc` | sylar/fiber.cc:183-215 | A callback that returns leaves TERM and no callback, one that throws leaves EXCEP; control goes to the stored link in one build and to the thread-local main fiber in the other |
| `FiberRuntime.Runtime.DropRef` | sylar/fiber.cc:86-105 | The last reference destroys the fiber, meets the destructor's assertions and counts down |
| `FiberRuntime.Runtime.EndThread` | sylar/fiber.cc:17-18 | The end of a thread drops its main fiber |
| `FiberRuntime.Runtime.Do` | sylar/fiber.cc:36-215 | In every valid state every call allowed by the client rules meets all assertions of the code, is the step of the state machine, and leaves a valid state |
| `ConfigTree.Lister.ListAllMember` | sylar/config.cc:5-25 | Appends exactly the nodes of the preorder walk whose dotted name is valid |
| `ConfigTree.OwnNameDecides` | sylar/config.cc:5-25 | A node's own dotted name is valid exactly when every name on the path to it is |
| `ConfigTree.ListedIffAllNamesValid` | sylar/config.cc:5-25 | A node is listed if and only if every dotted prefix on a path leading to it is valid |
| `ConfigTree.NothingBelowInvalid` | sylar/config.cc:9-13 | Stopping at an invalid name loses nothing: nothing below it has a valid name |
| `ConfigTree.ValidNameIsLower` | sylar/config.cc:39 | Lowercasing never changes a listed key |
| `ConfigTree.KeyOf` | sylar/config.cc:34-40 | The key looked up for a listed node is its dotted name |
| `ConfigPaths.NameIsJoinedKeys` | sylar/config.cc:16-21 | The name of every node is the keys on the way to it joined by dots, from the first non-empty key on |
| `ConfigPaths.NameCharacters` | sylar/config.cc:9-10 | Valid names consist of small letters, digits, dots and underscores |
| `ConfigPaths.StandsAtPlace` | sylar/config.cc:5-25 | Every node stands at its own place in the list of all nodes |
| `ConfigPaths.ListedInOrder` | sylar/config.cc:15-21 | Nodes are listed in document order: each before all below it and all that follow it |
| `ConfigPaths.PathOfPlace` | sylar/config.cc:5-25 | Every place in the list is that of a node |
| `ConfigVariable.RoundOf` | sylar/config.h:310-324 | In a round each listener is called once, in key order, unless one before it throws; nobody else is called |
| `ConfigVariable.RoundInOrder` | sylar/config.h:317-319 | The calls of a round are those of the listeners in the order of their keys, all of them or up to the first that throws |
| `ConfigVariable.SetKeepsLinkedIffNobodyThrows` | sylar/config.h:310-324 | `setValue` keeps every listener's chain of changes, ending at the stored value, if and only if the value is unchanged or no listener throws |
| `ConfigVariable.NotificationsFormChains` | sylar/config.h:310-349 | In every sequential run without throwing listeners each listener sees a chain: each new value is the next old value, old and new differ, the last new value is the stored one; keys are never reused |
| `ConfigVariable.WithoutMembers` | sylar/config.h:335-338 | Deleting a key removes that listener and no other |
| `ConfigVariable.ConfigVar.SetValue` | sylar/config.h:310-324 | Listeners are told first, the value is written after them, and nothing is written if one throws; the listeners run under the read lock, and the write lock is taken only to store |
| `ConfigVariable.ConfigVar.FromString` | sylar/config.h:292-304 | A text that does not convert changes nothing; otherwise it is `setValue`, and the result says whether it went through |
| `ConfigVariable.ConfigVar.AddListener` | sylar/config.h:327-333 | The listener is added last under a key never used before |
| `ConfigVariable.ConfigVar.DelListener` | sylar/config.h:335-338 | The listener under the key is gone and the others stay in order |
| `ConfigVariable.ConfigVar.ClearListener` | sylar/config.h:346-349 | No listener is left, and value and past calls stay |
| `ConfigStore.LastTakenWins` | sylar/config.cc:27-52 | Whatever the listeners do, after loading a variable holds the last listed entry of its name for which `fromString` returns true, or its old value if there is none |
| `ConfigStore.LastConvertedWinsIffTaken` | sylar/config.cc:27-52 | The last entry that converts decides the value if and only if it repeats the value held by then or no listener throws on that change |
| `ConfigStore.Config.LookupBase` | sylar/config.cc:54-58 | Finds exactly the registered variable of that name |
| `ConfigStore.Config.Lookup` | sylar/config.h:363-406 | A variable of the right type is returned as it is; a missing or differently typed one is made with the default; an invalid new name is refused |
| `ConfigStore.Config.LoadFromYaml` | sylar/config.cc:27-52 | Every registered variable ends as the listed members with its name, in preorder, leave it |
| `ConfigStore.Config.LookupTyped` | sylar/config.h:387-406 | Returns the variable exactly if it has the type; if it has another, that variable is read and reported under the registry's read lock |
| `ConfigStore.Config.LoadText` | sylar/config.cc:42-50 | `fromString` of one variable changes no other, and takes the locks of that `setValue` |
| `ConfigPaths.NestedEntryIsLoaded` | sylar/config.cc:27-52 | For every document and path: if the node's text converts and no later node of the same joined name has one that does, the variable of that name ends with the node's value if and only if it held it before or no listener throws on it |
| `ConfigPaths.EmptyNameIsNeverLoaded` | sylar/config.cc:34-37 | A variable with an empty name is never changed by loading |
| `ConfigRounds.StepKeeps` | sylar/config.h:310-349 | Every step of any interleaving of `setValue`, throwing listeners and listener changes keeps the invariant on locks, rounds, calls and writes |
| `ConfigRounds.RoundsAreUniform` | sylar/config.h:310-324 | In any interleaving all calls of one round announce the same pair of different values |
| `ConfigRounds.WritesWereAnnounced` | sylar/config.h:310-324 | In any interleaving every written value was announced to all listeners of its round, in order, before it was written, and the stored value is the last written one |
| `ConfigRounds.ConcurrentRoundsNeedNotChain` | sylar/config.h:310-324 | For any two new values, an interleaving in which two rounds announce changes from the same old value |
| `ConfigChains.InTouchIffOrderlyAndUndisturbed` | sylar/config.h:310-349 | For every interleaving and listener: at every point it has heard a chain of changes that ends with the stored value, or with the one about to be written, if and only if it is never told of a change while another one it was told of is unwritten, and no older round changes the value past it |
| `ConfigChains.ChainIffOrderly` | sylar/config.h:310-349 | For every interleaving, a listener that no older round bypasses hears a chain if and only if it is told of a change only when all it was told of before is written |
| `ConfigChains.OneAtATimeIsOrderly` | sylar/config.h:310-349 | If rounds are opened one at a time and no listener throws, every listener hears a chain, whenever it is added |
| `ConfigChains.QuietlyAddedIsUndisturbed` | sylar/config.h:327-333 | A listener added while no `setValue` is under way is never bypassed |
| `ConfigChains.LastHeardIsOverwritten` | sylar/config.h:310-324 | For any two new values, an interleaving in which a listener heard last of one of them and the other is stored in the end |
| `ConfigChains.LateListenerMissesAWrite` | sylar/config.h:327-333 | A concrete interleaving in which a listener added between the two locks of a `setValue` never hears of the stored value |
| `LogDefines.LevelRoundTrip` | sylar/log.cc:21-55 | A level survives being written and read exactly if it is one of the six of the enumeration |
| `LogDefines.KindRoundTrip` | sylar/log.cc:805-832 | Every appender kind survives being written and read |
| `LogDefineReads.LevelNames` | sylar/log.cc:21-37 | The levels 1 to 5 are written DEBUG, INFO, WARN, ERROR, FATAL and every other number UNKNOW |
| `LogDefineReads.LevelsIgnoreCase` | sylar/log.cc:40-55 | A text is read as a level from 1 to 5 if and only if it is that level's name in any mix of cases |
| `LogDefineReads.KindsIgnoreCase` | sylar/log.cc:805-832 | The same for the two kinds of appenders |
| `LogDefineReads.DefinitionFields` | sylar/log.cc:864-939 | What is read into each field of a definition from any node: name and level are required in this order, a missing formatter or appender list leaves that field empty and the rest is read, one of the wrong kind ends the reading |
| `LogDefineReads.AppenderFields` | sylar/log.cc:941-996 | When an appender is read, skipped or throws, and each of its fields, with level and formatter optional and the file required for file appenders |
| `LogDefineReads.AppendersFail` | sylar/log.cc:931-937 | Reading the appenders fails if and only if some element is a scalar |
| `LogDefineReads.AppendersAreThoseRead` | sylar/log.cc:931-937 | Otherwise the appenders are those of exactly the readable elements, in their order |
| `LogDefineReads.SetFails` | sylar/config.h:134-145 | A set cannot be read if and only if one of its definitions cannot |
| `LogDefineReads.FirstOfANameCounts` | sylar/config.h:134-145 | Of several definitions of one name the first is kept, and only names that occur are defined |
| `LogDefineLaws.AppenderRoundTrip` | sylar/log.cc:941-1017 | A written appender definition is read back unchanged if and only if its kind and level are known and it has a file name exactly when it is a file appender |
| `LogDefineLaws.AppendersRoundTrip` | sylar/log.cc:921-939 | A list of appenders is read back unchanged if and only if each of them is |
| `LogDefineLaws.DefinitionRoundTrip` | sylar/log.cc:861-1024 | A written definition keeps its name when read, and all of it if and only if its level and appenders are well formed |
| `LogDefineLaws.SetRoundTrip` | sylar/config.h:131-161 | A written set of definitions keeps its names when read, and all of it if and only if every definition is well formed |
| `LogDefineLaws.ReloadIsSilentIffGood` | sylar/config.h:278-324 | `fromString(toString())` on `logs` changes nothing and calls no listener if and only if every definition is well formed |
| `LogDefineLaws.ReadKindsAreKnown` | sylar/log.cc:941-957 | Whatever document was read, no definition has an appender of unknown kind |
| `LogDefineLaws.ReadAppenders` | sylar/log.cc:921-939 | The reading loop keeps the faultless appenders in order, and fails exactly if an element is a scalar |
| `LogDefineLaws.ReadDefinition` | sylar/log.cc:864-939 | Reading stops at the first faulty field and keeps what was read before it |
| `LogDefineLaws.ReadSet` | sylar/config.h:134-145 | Definitions are inserted in order, the first of a name winning |
| `LogDefineLaws.WriteSet` | sylar/config.h:151-160 | The set is written as one node per definition, and as a null node if it is empty |
| `LoggerModel.DeliveredOnceIffThresholdsPass` | sylar/log.cc:364-375 | An event reaches each entry of the effective appender list once, in order, if and only if the logger's, root's and the appender's thresholds all pass |
| `LoggerModel.NewLoggerPassesOn` | sylar/log.cc:281-289 | A new logger hands every event of level 1 or more to root and none below |
| `LoggerModel.AllThereIffKindsKnown` | sylar/log.cc:1061-1070 | The listener builds all appenders of a definition if and only if no kind is unknown |
| `LoggerModel.ReadDefinitionsAreWhole` | sylar/log.cc:1061-1070 | For definitions read from a document the listener's unknown-kind branch is unreachable |
| `LoggerHistory.LoggersShowWhatWasTold` | sylar/log.cc:1032-1092 | Whatever changes the listener heard of: every logger shows the last thing said of it, its level and appenders in order, or level 100 and no appenders after a removal |
| `LoggerAgreement.InStepIffSuits` | sylar/log.cc:1032-1092 | For every sequence of calls of the listener, every set of definitions and every name: the logger agrees with the set if and only if what was last said of it has the same level and appenders as its definition and the accepted pattern is the same; a logger nothing was said of must have no definition, or have agreed with it from the start |
| `LoggerAgreement.LoggersFollowDefinitions` | sylar/log.cc:1032-1092 | A name whose last told definition is the stored one has a logger with its level and its appenders in order; a removed one has level 100 and no appenders, and one that was never mentioned is as it was |
| `LoggerAgreement.UpdateLoggers` | sylar/config.h:310-324 | One `setValue` on `logs` reconciles the loggers from the old to the new value if its round reaches the library's listener, and leaves them alone otherwise |
| `LoggerAgreement.UpdateAgreesIff` | sylar/config.h:310-324 | For every variable, history, update and name, exactly when the logger agrees with `logs` afterwards: if the definition is unchanged or the update is neither heard nor stored, when it did before; if heard and stored, always; if heard only, when the new definition looks like the old one; if stored only, when what was said earlier suits the new one |
| `LoggerAgreement.HeardUpdateRecovers` | sylar/config.h:310-324 | From any state: after an update that is heard and stored a logger agrees with `logs` if and only if its definition changed or it agreed before, so that loggers that had been left behind come back |
| `LoggerAgreement.UpdateRightIff` | sylar/config.h:310-324 | The same for what the listener was told: exactly when the last told definition of a name is the stored one after an update |
| `LoggerAgreement.UpdateFollowsIff` | sylar/config.h:310-324 | An update keeps the last told definitions equal to the stored ones, for all names, if and only if it is heard exactly if it is stored |
| `LoggerAgreement.LevelChangeAgreesIff` | sylar/config.h:310-324 | After an update that gives a defined logger another level, this logger agrees with `logs` if and only if the update was heard exactly if it was stored |
| `LoggerAgreement.QuietUpdateFollows` | sylar/config.h:310-324 | With the library's listener registered, an update on which no listener throws keeps the last told definitions equal to the stored ones |
| `LoggerAgreement.RunAgreesIff` | sylar/log.cc:1032-1092 | For every run of updates and of adding and removing listeners, throwing ones included, a logger agrees with the stored definitions at the end if and only if the one-update conditions lead there, also after it was out of step in between |
| `LoggerAgreement.StaysInStepIffHarmless` | sylar/log.cc:1032-1092 | For every such run a logger agrees with the stored definitions at every point if and only if it did at first and each update meets the one-update condition for it |
| `LoggerAgreement.AllStayInStepIffHarmless` | sylar/log.cc:1032-1092 | The same for all loggers at once |
| `LoggerAgreement.AbortedUpdateLeavesLoggersAhead` | sylar/config.h:310-324 | If a listener throws after the library's one, a logger that gets a definition has it and the variable has not, they disagree, and setting the stored value again changes nothing |
| `LoggerAgreement.AbortedUpdateExists` | sylar/config.h:310-324 | A concrete variable, value and listeners of this kind |
| `LoggerAgreement.AbortedUpdateCanBeUnseen` | sylar/config.h:310-324 | A concrete aborted update after which the listener no longer follows the variable and yet every logger agrees with it |
| `LoggerHistory.UnchangedAreUntouched` | sylar/log.cc:1046-1053 | A logger whose definition a change leaves alone is unchanged by it |
| `LoggerHistory.PatternIsLastAccepted` | sylar/log.cc:1056-1058 | After any changes the listener heard of, a logger's own pattern is the last accepted one that came with a change of its definition, or the one it started with |
| `LoggerHistory.ShapeDoesNotDependOnHistory` | sylar/log.cc:1055-1077 | Two histories that last told of the same definition of a logger agree on its level and its appenders' kinds, files and levels |
| `LoggerHistory.RemovedLoggerIsSilent` | sylar/log.cc:1081-1090 | A logger last heard of as removed emits no event below level 100, so none of any level of the enumeration, not even through root |
| `LoggerHistory.DefinedLoggerShows` | sylar/log.cc:1055-1077 | A logger told a definition has its level, its accepted pattern, and its appenders one by one up to the first of unknown kind: kind, level, file for file appenders only, own pattern or the logger's |
| `LoggerAgreement.LoggersFollowDocumentIff` | sylar/config.cc:27-52 | After loading any document, with any listeners on `logs`, a logger agrees with what `logs` then holds if and only if the one-update conditions of the entries that convert lead there |
| `LoggerAgreement.DocumentDecidesLogs` | sylar/config.cc:27-52 | After loading a document `logs` holds the set read from the last entry named `logs` that converts if and only if that entry is taken |
| `LoggerAgreement.QuietLoadAgrees` | sylar/config.cc:27-52 | With the library's listener registered and none that throws, every document leaves a logger that agreed with `logs` in agreement with what `logs` then holds |
| `ConcurrentLoggers.LoggersInEveryInterleaving` | sylar/config.h:310-349 | In every interleaving of `setValue` calls on `logs` each logger shows the last thing said of it, and agrees with the stored definitions if and only if that suits them |
| `ConcurrentLoggers.OrderlyLoggersInStepIff` | sylar/config.h:310-349 | For every interleaving in which the library's listener was added first and is told of a change only when all it was told of are written: a logger agrees with `logs` if and only if the last change is written, leaves its definition alone, or does not show |
| `ConcurrentLoggers.OneAtATimeLoggersInStep` | sylar/config.h:310-349 | With one `setValue` at a time, no exceptions and none under way, every logger agrees with `logs` |
| `ConcurrentLoggers.ConcurrentUpdatesPartLoggers` | sylar/config.h:310-324 | For any two definitions with different levels, an interleaving of two `setValue` calls after which the logger shows one of them for good and `logs` holds the other |
| `Loggers.LogAppender.SetFormatter` | sylar/log.cc:270-274 | The appender has the formatter and from now on counts as having one |
| `Loggers.LogAppender.Log` | sylar/log.cc:408-485 | The pattern's reading of the event is written if and only if the threshold passes, under the appender's lock |
| `Loggers.Logger.constructor` | sylar/log.cc:281-289 | A new logger has level DEBUG, the default pattern and no appenders |
| `Loggers.Logger.AddAppender` | sylar/log.cc:291-297 | The appender is attached last; it takes the logger's formatter only if it has none, so every attached appender has one |
| `Loggers.Logger.DelAppender` | sylar/log.cc:299-308 | The first occurrence is removed and the others stay in order |
| `Loggers.Logger.ClearAppenders` | sylar/log.cc:310-312 | No appender is left and nothing else changes |
| `Loggers.Logger.SpreadFormatter` | sylar/log.cc:321-325 | Exactly the appenders that never got a formatter get the logger's |
| `Loggers.Logger.SetFormatter` | sylar/log.cc:314-326 | An erroneous pattern is ignored; otherwise it becomes the logger's and no attached appender changes |
| `Loggers.Logger.SetPattern` | sylar/log.cc:328-339 | The pattern becomes the logger's exactly if it is accepted |
| `Loggers.Logger.Log` | sylar/log.cc:364-375 | Logging ends and delivers to the own appenders, or through root if there are none; the locks taken are those of the lock model's call: nothing below the level, the logger's and its passing appenders', or root's inside the logger's |
| `LoggerManagement.NewRoot` | sylar/log.cc:754-766 | Root starts with a console and a file appender in this order, each with its own pattern |
| `LoggerManagement.LoggerManager.constructor` | sylar/log.cc:754-771 | The only logger is root, without a parent |
| `LoggerManagement.LoggerManager.GetLogger` | sylar/log.cc:773-785 | The logger of that name, made with root as parent if it was missing, under the manager's lock; no other logger changes |
| `LoggerManagement.Define` | sylar/log.cc:1055-1077 | An added or changed definition gives the logger its level, its pattern if accepted, and fresh appenders |
| `LoggerManagement.AddDefined` | sylar/log.cc:1061-1077 | The appender loop builds the definition's appenders in order up to the first of unknown kind |
| `LoggerManagement.LoggerManager.Reconcile` | sylar/log.cc:1032-1092 | The listener makes every logger what the diff of the two sets says, name by name, and writes only to loggers whose definition changed; all it does with locks is making logging calls |
| `LoggerManagement.LoggerManager.LogTo` | sylar/log.cc:364-375 | Logging to a managed logger delivers as specified, with root as the only parent |
| `LoggerClients.Logging.Reaches` | sylar/config.h:317-319 | The round reaches the library's listener exactly if it is registered and no listener before it throws |
| `LoggerClients.Logging.SetLogs` | sylar/config.h:310-324 | `setValue` on the `logs` variable with the library's listener among others: the loggers are reconciled exactly if the round reaches that listener, the value is stored exactly if nobody throws, and only loggers whose definition changes are written to |
| `LoggerClients.Logging.AddAppender` | sylar/log.cc:291-297 | Attaching an appender, even a shared one, keeps the manager valid and changes no other logger |
| `LoggerClients.Logging.DelAppender` | sylar/log.cc:299-308 | Detaching keeps the manager valid and changes no other logger |
| `LoggerClients.Logging.SetFormatter` | sylar/log.cc:314-326 | A new formatter on a managed logger keeps the manager valid and changes at most that logger's pattern |
| `LoggerClients.Logging.SetAppenderFormatter` | sylar/log.cc:270-274 | Giving any appender a non-null formatter keeps every attached appender with a formatter |
| `LockOrder.RunKeeps` | sylar/thread.h:32-132 | In every reachable state each thread only releases what it took last and only takes locks above all it holds, apart from exempt read locks, and an exclusive hold excludes all others |
| `LockOrder.SomeThreadCanStep` | sylar/thread.h:32-132 | If every thread climbs the ranks, where readers come first apart from read locks on the configuration, no state is a deadlock |
| `LockOrder.NoDeadlock` | sylar/thread.h:32-132 | Every run of threads that climb can go on until all have finished and all locks are free, after a fixed number of steps |
| `LibraryLocks.LoggingClimbs` | sylar/log.cc:270-375 | Every logging operation climbs from manager to ordinary logger to root logger to appender |
| `LockNesting.LogThroughRootNesting` | sylar/log.cc:364-375 | Logging through root takes the logger's lock, then root's while exactly that is held, then each appender's while exactly these two are held |
| `LockNesting.OnLoggerNesting` | sylar/log.cc:291-375 | A call on one logger takes its appenders' locks while exactly its own is held |
| `LockNesting.ManagerNesting` | sylar/log.cc:773-785 | `getLogger` holds the manager's lock alone; `toYamlString` takes each logger's and appender's inside it |
| `LockNesting.SetValueNesting` | sylar/config.h:310-324 | All listener code runs while the variable is held shared and nothing else of the call is; one exclusive hold with nothing else held follows if the value is stored |
| `LockNesting.LookupWrongTypeNesting` | sylar/config.h:387-406 | A lookup with the wrong type takes the variable's read lock and root's lock for the report while the registry is held shared |
| `LockNesting.SingleNestings` | sylar/config.h:278-349 | The calls that hold a single lock, with its mode |
| `LockNesting.VisitNesting` | sylar/config.cc:60-66 | Callbacks of `Visit` run while the registry is held shared |
| `LibraryLocks.CallConforms` | sylar/config.h:278-406 | Every operation of the library nests locks only as its user code does: registry and variables first, logging locks in their order inside them |
| `LibraryLocks.LoggingCallbacksAreAllowed` | sylar/log.cc:1032-1092 | User code made of logging operations, like the listener on `logs`, is allowed under every lock |
| `DeadlockFreedom.NumberedNeverDeadlocks` | sylar/config.h:310-324 | Any number of threads making any sequences of library calls whose user code follows a numbering never deadlock, and all finish, in every interleaving and under either lock policy |
| `DeadlockFreedom.CircleDeadlocks` | sylar/config.h:310-324 | For every circle of uses, of any length from one on and under either policy, there are programs that keep to them and a run in which no thread can step and none has finished |
| `DeadlockFreedom.NeverDeadlocksIffNumbered` | sylar/config.h:278-406 | For every finite relation of what user code does under which configuration lock, and either policy: no program deadlocks if and only if the locks can be numbered along the relation |
| `DeadlockFreedom.ReadingOwnVariable` | sylar/config.h:306-319 | A listener that reads its own variable never deadlocks if the lock prefers readers, and can if it prefers writers |
| `DeadlockFreedom.LoggingListenersNeverDeadlock` | sylar/log.cc:1032-1092 | With listeners that only log nothing deadlocks under either policy |
| `CasLock.StepKeeps` | sylar/thread.h:32-64 | Every single access of any guard keeps: one owner at most, flag set exactly if there is one, `m_locked` right at its place, counter exact |
| `CasLock.MutualExclusion` | sylar/thread.h:186-210 | In every interleaving at most one thread is between setting and clearing the flag, and the flag is set exactly if there is one |
| `CasLock.OnlyTheOwnerReleases` | sylar/thread.h:52-57 | In every interleaving a step that clears the flag is by the guard that alone owns the lock, relocking and destruction included |
| `CasLock.CounterCountsIncrements` | tests/test_thread.cc:25-29 | A guarded counter, read and written in separate steps, equals the number of completed increments |
| `CasLock.NewGuardLocks` | sylar/thread.h:32-46 | A new guard gets a free lock in three accesses, and on a taken one spins without changing anything |
| `CasLock.GuardUnlocks` | sylar/thread.h:38-57 | A locked guard frees the lock by `unlock` or with its end, an unlocked one can lock again, and repeating `lock` or `unlock` does nothing |
| `CasLock.OwnerCanFree` | sylar/thread.h:32-64 | Whenever the lock is taken its owner can free it by its own steps |
| `CasLock.Memory.Do` | sylar/thread.h:32-64 | Each access in place is the step of the state machine and keeps its invariant |
| `ThreadStart.RunIsDoneWithObjectAtReturn` | sylar/thread.cc:67-83 | In every interleaving all accesses of `run` to the object come before the constructor returns; then the id is set, the callback is moved out, and the name is known to both threads |
| `ThreadStart.CallbackEnteredOnce` | sylar/thread.cc:76-82 | The callback is entered at most once, and has been when the thread has ended or was joined |
| `ThreadStart.JoinedOrDetachedOnce` | sylar/thread.cc:32-48 | A created thread is joined or detached at most once, exactly once when its object is gone, also if joins failed before; one that was not created is neither |
| `ThreadStart.ConstructorGetsThrough` | sylar/thread.cc:22-30 | While the constructor waits, it or the new thread can go on |
| `ThreadStart.ThreadCanLive` | sylar/thread.cc:14-83 | There are runs in which a thread is constructed, enters its callback once and ends, and is destroyed after a join, or detached without one |
| `ThreadStart.Thread.Create` | sylar/thread.cc:22-27 | Creating either starts `run` and keeps the handle, or fails and leaves the object without a thread |
| `ThreadStart.Thread.Continue` | sylar/thread.cc:67-83 | Each access of `run` in place is the step of the state machine |
| `ThreadStart.Thread.Join` | sylar/thread.cc:38-48 | A successful join gives the handle up, a failed one keeps it for another try, and one without a handle does nothing |
| `ThreadStart.Thread.Destruct` | sylar/thread.cc:32-36 | The destructor detaches exactly if the handle is still there |

## Left out

- Scheduler: starting, stopping and tickling are empty in the source; only a queue would remain.
- Output: files, the console, reopening once a second, colours, `strftime` and path shortening; a format item prints an arbitrary function of the event and its format string.
- Characters: `isalpha`, `tolower` and `toupper` are those of the "C" locale.
- YAML text syntax and scalar conversions: documents are finite trees, emitting and loading are inverse, conversion from text is an arbitrary partial function.
- LogDefineLaws.ReadSet: a mapping directly under `logs` is taken as a failed conversion; the YAML library's indexing of mappings by number is not modelled.
- Registry of mixed types: `ConfigStore.Config` holds variables of one value type; type names tell the types of the source apart. `Config::Visit` occurs only in the lock model.
- Listener keys: the 64-bit wrap-around of the shared counter. The counter is one for all variables of a type but is incremented under each variable's own lock (sylar/config.h:328-330), so concurrent `addListener` calls on two variables race on it; that keys are never reused is shown for calls one after the other.
- Exceptions from listeners other than `std::exception`, which leave `fromString` as well; the library's own listener on `logs` is taken not to throw.
- Fiber granularity: a library call is one step of its thread; other threads' fibers do not share its fields, and the two global counters are atomic in the source.
- Fiber uses outside the protocol: nested `swapIn`, yielding from the main fiber, moving fibers between threads, resuming finished ones.
- Stacks and machine contexts: a context is a callback position and who is resumed; `getcontext` and `swapcontext` succeed.
- Unsynchronised accesses (`clearAppenders`, logger and appender levels, the reference returned by `getValue`): taken as atomic; nothing is said about data races.
- LoggerClients.Logging.SetLogs: the work of the other listeners on `logs` is not modelled beyond whether they throw, and their order relative to the library's one only as far as it decides whether that one is reached.
- Concurrent calls of the listener on `logs`: each is one step in `ConcurrentLoggers`; two threads under the read lock may in fact interleave inside it, logger by logger.
- Order of the two sets in the listener: definitions are visited in an arbitrary order, of which the name order is one.
- Lock model: which appenders and callbacks a call touches is a parameter of the call, so it covers every state of the loggers; spinning and sleeping are both waiting. The ghost traces leave out the reopening of log files, what the library itself logs to root other than the report of `Lookup`, and accesses without a lock; which lock belongs to which object is a ghost field.
- CAS lock: memory ordering; accesses are sequentially consistent.
- Thread names: `Thread::SetName` and the 15-character limit of the system's thread name.
- Semaphore: posting is one step, and the calls on it succeed.
- Backtraces, singletons, static initialisation order, `toYamlString` texts, thread id system calls.
