# Shinken: verified models

Shinken is a distributed monitoring engine: an arbiter hands configurations to schedulers
and satellites, schedulers hand checks to satellites, satellites let workers run them and
bring the results back. This project models the parts of it with the most state, branching
and recursion, and proves what they keep, compute and promise. `dafny verify dfyconfig.toml`
checks all of it.

| file | models |
|---|---|
| `Graph.dfy` | the five-colour loop search and the accessibility packs over in-place tags |
| `Dispatcher.dfy`, `DispatchLinks.dfy`, `DispatchSlots.dfy`, `DispatchOrder.dfy`, `DispatchMeaning.dfy` | the rounds in which the arbiter assigns configurations to schedulers and satellites, and what their invariants say of links, configurations and books |
| `Pipeline.dfy`, `Checks.dfy`, `SchedulerChecks.dfy`, `SatelliteQueues.dfy` | the way of a check through scheduler, satellite, worker and back, with losses and re-enabling |
| `BusinessRule.dfy`, `BusinessRuleRoundTrip.dfy`, `BusinessRuleMalformed.dfy`, `RuleState.dfy`, `BusinessRuleMeaning.dfy` | the business-rule language: parser, round trip, texts that are no rule, evaluation, and what a text evaluates to |
| `GroupExpression.dfy`, `GroupExpressionMeaning.dfy` | the group-expression language: parser, resolution, meaning |
| `Downtime.dfy` | nested and triggered downtimes, and the depth counter of their items |
| `Daterange.dfy` | the search for the next valid instant |
| `SplitSemicolon.dfy`, `CommandPipe.dfy` | escaped splitting, and commands put together from pipe reads |
| `SortedDict.dfy` | the dictionary with a sorted key list |
| `Text.dfy`, `Brackets.dfy`, `Lists.dfy`, `Options.dfy` | strings, balanced texts, lists and optional values that the others share |

Where the source changes objects in place the model has classes whose methods state their
whole effect; where it computes, functions. Answers from elsewhere (pings, whether a link
acknowledges what it is sent, results of plugins, verdicts of hosts and services, the clock,
the order of a dictionary) are parameters and random flavors are undetermined, so every
theorem holds for all of them. The dispatcher notes every send to a satellite in a log, and
"refuses" and "last sent" are read off that parameter and that log.

Some promises hold only under a condition; the condition is then proved exact:

- A calendar range whose end lies before its start yields an instant although it admits none
  (`Dateranges.BackwardsCalendar`), and a time range such as `18:00-08:00` yields its start,
  which no range covers (`Dateranges.UncoveredStart`). `Dateranges.RightEverywhereIff` says
  exactly which date ranges are searched rightly at every instant.
- Cancelling a downtime lowers the depth of an item for every downtime it reaches, in effect
  or not. `Downtimes.Scheduler.CancelDowntime` states that depths and downtimes in effect
  agree afterwards exactly if all of them were in effect.
- The depth of an item can stay above the number of its listed downtimes in effect for good:
  a cancelled flexible downtime is entered again before it is dropped
  (`Downtimes.ReenteredAfterCancel`), or a dropped one is still entered by its trigger
  (`Downtimes.EnteredAfterDrop`). Each operation states exactly when depths agree with the
  items' own lists afterwards; for a pass the condition is `Endures`.
- `loop_check` returns nodes that only lead to a loop too, but not all of them.
  `Graphs.ReportMisses` says which are missed.
- A simple `Kof:` rule is not monotone in general: `RuleStates.SimpleOfMonotone` says when.
- A field that ends in a backslash swallows the next one: `SplitSemicolons.RoundTripIff`.
- A read of the command pipe that comes back short in the middle of a line tears that line in
  two: `CommandPipes.Reassembly` counts the tears.
- `SortedDict.update` with a repeated new key breaks the index, and only that does.
- The rotation of brokers drops some for most turns: `DispatchOrder.RotatedComplete`.
- A dispatch that is complete need not stay right although nothing happens. After a round
  that assigned everything, a round in which everybody is as known loses nothing, and it
  sends nothing and finds the dispatch still right exactly if no entry is flagged
  (`Dispatchers.Dispatcher.QuietStaysRight`, `Dispatchers.Dispatcher.Round`). A realm that
  does not link all brokers uses one of them, so where it needs two or more every check
  finds the dispatch wrong (`Dispatchers.Dispatcher.ClassicNeverRight`).
- A check that is forced to be consumed while it is away keeps its shell although the
  scheduler no longer waits for it (`Pipelines.ForcedShell`). `Pipelines.OneShell` says that
  a live shell of a check never re-enabled is waited for exactly if the check was not forced.
  One that is re-enabled while away can have two shells: `Pipelines.TwoShells`.

## Model

| member | source | states |
|---|---|---|
| Graphs.Graph.AddEdge | shinken/graph.py:48-57 | one edge is added with whichever ends were unknown; every other edge and the closedness of the graph stay |
| Graphs.Graph.LoopCheck | shinken/graph.py:60-79 | on every graph the returned list is `Report`: node by node in order, those that lead to a cycle and lie on one or are reached from an earlier node; tags are removed |
| Graphs.Graph.DfsLoopSearch | shinken/graph.py:86-116 | the in-place search computes the tag map of the recursive search and terminates on the unchecked nodes |
| Graphs.SearchCorrect | shinken/graph.py:86-116 | one search keeps the tag invariant, moves tags only forward, explores only what its root reaches and marks the root inside a loop only on a cycle |
| Graphs.TurnReports | shinken/graph.py:67-73 | after its turn a node carries LOOP_INSIDE exactly if it leads to a cycle and lies on one or was seen before |
| Graphs.CollectedIsReport | shinken/graph.py:67-73 | the outer loop over all nodes collects exactly `Report` |
| Graphs.ReportSound | shinken/graph.py:60-79 | every returned node can reach a cycle |
| Graphs.ReportComplete | shinken/graph.py:60-79 | every node on a cycle is returned |
| Graphs.ReportEmptyIffAcyclic | shinken/graph.py:59-79 | nothing is returned exactly if the graph is acyclic |
| Graphs.ReportMisses | shinken/graph.py:60-79 | a node that leads to a cycle is missed exactly if it is on none and no earlier node reaches it |
| Graphs.Graph.DfsGetAllChilds | shinken/graph.py:141-155 | one call checks and gathers everything its root reaches through unchecked nodes |
| Graphs.GatheredComponent | shinken/graph.py:141-155 | from a closed set of checked nodes one call gathers exactly the component of its root |
| Graphs.Graph.GetAccessibilityPacks | shinken/graph.py:123-138 | the packs cover every graph; where edges can be walked back they are disjoint components |
| Graphs.PacksAreComponents | shinken/graph.py:118-138 | each node is in exactly one pack, and two nodes share a pack exactly if a path joins them |
| Graphs.SymmetricIsReturning | shinken/graph.py:121-122 | graphs with edges father-son and son-father are such graphs |
| Dispatchers.Dispatcher.constructor | shinken/dispatcher.py:77-114 | no configuration is assigned, every scheduler asks for one, and the invariant of all rounds holds |
| Dispatchers.Dispatcher.CheckAlive | shinken/dispatcher.py:121-130 | each element is known as it told, or as before if it was not asked; a scheduler asks for a configuration exactly if it did, is dead or holds none; links and books are untouched |
| DispatchMeaning.KnownIs | shinken/dispatcher.py:121-130 | an element that was asked is alive, reachable and managing as it told, any other as before |
| DispatchLinks.CheckHolder | shinken/dispatcher.py:171-193 | a holder that is dead or does not manage the configuration in its flavor releases it on both sides, and only then |
| DispatchLinks.CheckConf | shinken/dispatcher.py:162-194 | checking one configuration keeps all links, says whether its holder is alive and manages it, releases it exactly if not, and touches no other configuration or scheduler |
| DispatchSlots.CheckRow | shinken/dispatcher.py:203-235 | an entry stays exactly if enough satellites manage it and none is in trouble; otherwise it is emptied and flagged |
| Dispatchers.Dispatcher.CheckDispatch | shinken/dispatcher.py:142-235 | exactly the configurations whose holder is alive and manages them stay held, in their flavor; the dispatch stays right exactly if it was, all are so held and every entry has enough managers and none in trouble, and then no entry changes; otherwise a set flag means no manager |
| Dispatchers.Dispatcher.RightDispatch | shinken/dispatcher.py:160-235 | if the check leaves the dispatch right, each configuration has a living managing scheduler and the full number of satellites of each kind, none in trouble |
| DispatchLinks.AssignmentInjective | shinken/dispatcher.py:438-442 | no scheduler holds two configurations |
| DispatchOrder.AliveThenSpareThenDeads | shinken/util.py:410-425 | the loop computes the three groups one after the other |
| DispatchOrder.OrderedStable | shinken/util.py:410-425 | the order is a permutation that keeps the order within each group |
| DispatchOrder.OrderedRanks | shinken/util.py:410-425 | whoever is alive and no spare comes first, then the spares alive, then the dead |
| DispatchOrder.KeptOrder | shinken/dispatcher.py:494-499 | keeping only some links alive leaves spares last and nothing twice |
| DispatchLinks.GetSchedulerOrderedList | shinken/dispatcher.py:310-330 | the realm's own schedulers and the spares of every realm above it, ordered and reversed |
| DispatchOrder.PoolUsable | shinken/dispatcher.py:313-323 | these are exactly the schedulers of the realm and the spares among those of the realms above it |
| DispatchLinks.Candidates | shinken/dispatcher.py:349-359 | exactly the living schedulers that are the realm's own or spares of a realm above it, popped so that a spare comes only after all that are none |
| DispatchLinks.FindScheduler | shinken/dispatcher.py:373-433 | schedulers are popped until one that asks acknowledges the configuration; all before it ask for nothing or refuse it, and if it is a spare all behind it are |
| DispatchLinks.Assign | shinken/dispatcher.py:438-445 | links stay a partial injection, and the scheduler, which held nothing before, is known to manage exactly this configuration in its flavor; who held one rightly still does |
| Dispatchers.Dispatcher.TryConf | shinken/dispatcher.py:363-456 | a configuration goes to a candidate that acknowledges it, or all candidates ask for nothing or refuse it; its books are reopened for its holder, flagged exactly if it has one, and all others are unchanged |
| Dispatchers.Dispatcher.DispatchRealm | shinken/dispatcher.py:341-456 | each configuration of the realm that was unassigned goes to a living scheduler of the realm, or spare of a realm above it, that acknowledges it; if one is left over each of those that is alive asks for nothing or refuses a configuration, and if one went to a spare so does every living one that is no spare; nothing assigned is taken away |
| DispatchMeaning.LeftOver | shinken/dispatcher.py:348-456 | where a configuration is left over, every living scheduler of the realm, and every living spare above it, that still asks refuses a configuration of the realm that was to be given |
| DispatchMeaning.GivenToSpare | shinken/dispatcher.py:349-456 | where a spare was given one, so does every living regular scheduler of the realm that still asks |
| DispatchMeaning.NewlyGiven | shinken/dispatcher.py:310-445 | who newly holds a configuration is alive, acknowledged it, and is of the realm or a spare of a realm above |
| DispatchMeaning.HolderIs | shinken/dispatcher.py:438-445 | a holder points back, is alive, asks for nothing and is known to manage its configuration in its flavor |
| Dispatchers.Dispatcher.CountMissing | shinken/dispatcher.py:459-466 | none is missing exactly if every configuration is assigned |
| Dispatchers.Dispatcher.StopAsking | shinken/dispatcher.py:468-475 | exactly the schedulers without a configuration stop asking for one |
| DispatchOrder.Rotate | shinken/dispatcher.py:505-516 | the loop computes the rotated list of brokers |
| DispatchOrder.RotatedKeeps | shinken/dispatcher.py:505-516 | the rotation repeats none, invents none, keeps all spares and keeps them last |
| DispatchOrder.RotatedComplete | shinken/dispatcher.py:509-516 | the rotation keeps every broker exactly if the turn is the first, or at least the third and not beyond the middle |
| DispatchOrder.RotatedIs | shinken/dispatcher.py:505-516 | the order for each turn, written out: where the list starts and what is appended behind it |
| DispatchSlots.SendAll | shinken/dispatcher.py:528-569 | exactly the first satellites that have the configuration or acknowledge it, as many as needed, are sent it and noted in the log, in the order given; nobody else is |
| DispatchSlots.Recruit | shinken/dispatcher.py:487-569 | the managers are exactly the first willing satellites of the list sent to, as many as may be used: distinct, alive, reachable and sent the flavor. If there could be more, every other one on the list refuses; the list has every satellite reached, but for a classic realm's brokers, where it is their rotation and one is used |
| DispatchSlots.DispatchRow | shinken/dispatcher.py:487-584 | an emptied entry is filled with exactly those satellites, known to manage the flavor they were last sent by a true log; it stays flagged only if every other living reachable one refuses, or, for a classic realm's brokers, if more than the one used are needed or all of the rotated list refuse |
| DispatchSlots.PickedWell | shinken/dispatcher.py:490-558 | what choosing the first willing ones of the list amounts to: distinct, reached and willing, and everyone passed over refuses |
| DispatchMeaning.PickedFirst | shinken/dispatcher.py:524-569 | nobody who is willing is passed over for one further behind |
| DispatchSlots.SendListFacts | shinken/dispatcher.py:490-516 | the list repeats none, has spares last and only living reachable satellites, and all of those unless brokers take turns |
| DispatchSlots.ConfirmedExtends | shinken/dispatcher.py:538-565 | sending one configuration does not undo what was last sent of others |
| DispatchMeaning.LastFlavorIs | shinken/dispatcher.py:538-565 | the flavor last confirmed is that of the last acknowledged send to that satellite |
| Dispatchers.Dispatcher.Dispatch | shinken/dispatcher.py:335-584 | nobody who holds a configuration loses it or its flavor, whoever newly holds one is alive, acknowledged it and is known to manage it, every realm is exhausted, managers are healthy and true to the log, an entry stays flagged only if everyone it may use was asked (in a classic realm also where more brokers are needed than the one used), and the dispatch is right exactly if all is assigned; a dispatch already right sends nothing |
| Dispatchers.Dispatcher.Inspect | shinken/dispatcher.py:120-235 | of what the satellites tell, exactly the configurations whose holder is found dead or not managing them are lost, the others keep holder and flavor; the dispatch is found right exactly if it was, none is lost and every entry is complete and without trouble by what was told |
| Dispatchers.Dispatcher.Round | shinken/dispatcher.py:120-584 | one round loses exactly the configurations whose holder is found dead or not managing them, gives them only to living schedulers of their realm or spares above it that acknowledge them, leaves one over only if all of those were tried, and keeps: links agree on both sides, holders are alive and known to manage what they hold, and each held configuration is per kind either flagged, everyone usable having been asked, or managed by exactly the needed number of distinct satellites; managers are alive, managing it or unreachable, last sent its flavor by a log without a false entry, and told its holder. A round that finds the dispatch right sends nothing |
| DispatchMeaning.LostIs | shinken/dispatcher.py:162-194 | a configuration is lost exactly if it has no scheduler, or its scheduler as it told, or as it was known if it was not asked, is dead or does not manage it in its flavor |
| DispatchMeaning.BooksAre | shinken/dispatcher.py:196-584 | the books of a held configuration name its holder and, for each kind, distinct living satellites of the realm that were last confirmed in its flavor, flagged exactly if fewer than needed |
| DispatchMeaning.FlagMeansAsked | shinken/dispatcher.py:524-584 | where an entry is flagged, every living reachable satellite of its kind manages the configuration or refuses it |
| DispatchMeaning.FineIs | shinken/dispatcher.py:196-235 | the books are without fault exactly if no kind has too few managers and no manager is, by what was told, dead or reachable and without the configuration |
| Dispatchers.Dispatcher.Run | shinken/daemons/arbiterdaemon.py:836-845 | after any number of rounds, whatever is told and acknowledged, the same holds of links, holders and managers, and the log has only grown |
| Dispatchers.Dispatcher.QuietStaysRight | shinken/dispatcher.py:142-235 | after a round that assigned everything, a report of everybody as known loses nothing and finds the dispatch right exactly if no entry is flagged |
| Dispatchers.Dispatcher.ClassicNeverRight | shinken/dispatcher.py:207-213 | a classic realm that needs two brokers or more is never found right |
| SchedulerChecks.Scheduler.GetToRunChecks | shinken/scheduler.py:637-656 | the batch is the first eligible checks in priority order, up to the limit; exactly these are away afterwards |
| SchedulerChecks.SortedIsStable | shinken/scheduler.py:634-639 | the order is a permutation by rising priority that keeps the order within one priority |
| SchedulerChecks.ToRunIs | shinken/scheduler.py:637-656 | who is handed out is enabled for the poller's tags and modules, scheduled and due, and nobody eligible is passed over for one further behind unless the limit is reached |
| SchedulerChecks.GivenEnabled | shinken/scheduler.py:649-656 | handing out is the corresponding step of the pipeline |
| SchedulerChecks.Scheduler.PutResults | shinken/scheduler.py:726-736 | a known check waits to be consumed, an unknown one is ignored |
| SchedulerChecks.Scheduler.ConsumeResults | shinken/scheduler.py:1332-1363 | all waiting results are put, consumed, resolved and reintegrated, in this order |
| SchedulerChecks.CollectedIs | shinken/scheduler.py:1332-1363 | the status of each check afterwards, from its own before, whether a result of it waits and the verdicts of its host or service; everything else of it stays |
| SchedulerChecks.Scheduler.CheckOrphaned | shinken/scheduler.py:1562-1569 | exactly the checks away for longer than their limit, where there is one, are scheduled again, and nothing else changes |
| SchedulerChecks.Scheduler.DeleteZombieChecks | shinken/scheduler.py:1368-1377 | exactly the zombies go |
| SatelliteQueues.Satellite.AddActions | shinken/satellite.py:683-720 | each queue keeps what it had and gets, in order, the actions whose module and id select it; if all modules are known every action whose module has a worker stands queued where its id selects, and the total grows by exactly those that have one |
| SatelliteQueues.Satellite.GetActionsQueueLen | shinken/satellite.py:816-821 | the total length of all queues |
| SatelliteQueues.Satellite.GetAvailableSlots | shinken/satellite.py:800-812 | the room left below max_q_size, or else below q_factor times the workers' capacity, or no limit |
| SatelliteQueues.Satellite.DoGetNewActions | shinken/satellite.py:735-776 | every active scheduler is asked in turn for what the queues then still allow, and its answer queued as `AddActions` says |
| SatelliteQueues.Satellite.TurnStep | shinken/satellite.py:745-812 | what the next scheduler is asked for, in numbers, and what its answer does to the queues |
| SatelliteQueues.Satellite.TurnBounded | shinken/satellite.py:745-776 | over all schedulers of a turn the queues stay within max_q_size, or q_factor times the workers' capacity, or what they held before |
| SatelliteQueues.Satellite.CreateAndLaunchWorker | shinken/satellite.py:488-534 | an empty queue joins and the module's shells are routed to it too; a module without workers fails and one that is not loaded changes nothing |
| SatelliteQueues.Satellite.DelWorker | shinken/satellite.py:619-636 | exactly the queue of the dead worker goes, and the routes lead to the remaining ones |
| SatelliteQueues.WithoutQueueIs | shinken/satellite.py:619-636 | of the workers of a module the dead one is dropped, those before keep their number and those behind move up by one |
| SatelliteQueues.Satellite.Run | shinken/satellite.py:745-821 | over any number of turns, with workers taking checks, starting and dying in between, the queues stay within max_q_size |
| SatelliteQueues.Satellite.ManageActionReturn | shinken/satellite.py:371-403 | the result waits for its scheduler, or is dropped if that is unknown |
| SatelliteQueues.Satellite.DoManageReturns | shinken/satellite.py:418-458 | each waiting list splits into what an acknowledging scheduler was sent, of the batch size, and what still waits |
| SatelliteQueues.Worker.GetNewChecks | shinken/worker.py:160-175 | as many checks as fit move from the queue to the list in order; the list stays within processes_by_worker |
| SatelliteQueues.Worker.LaunchNewChecks | shinken/worker.py:180-191 | each queued check gets the status its launch gives, and nothing else changes |
| SatelliteQueues.Worker.ManageFinishedChecks | shinken/worker.py:197-220 | exactly what is done or timed out moves to the returns queue, in order; all else stays and nothing is lost or doubled |
| Checks.QueueAdds | shinken/satellite.py:702-720 | queueing adds at most the batch, in number and for each check |
| Checks.EnqueueExactly | shinken/satellite.py:683-720 | each queue is extended by exactly the part of the batch that its module and id send there, in order |
| Checks.RoutedThere | shinken/satellite.py:683-720 | in a batch of known modules every shell whose module has workers is in the part of the worker that its id selects |
| Checks.EnqueueTotal | shinken/satellite.py:683-720 | the queues grow by exactly the shells whose module has a worker |
| Checks.FinishedCount | shinken/worker.py:201-220 | finishing neither loses nor doubles a shell |
| Checks.PolledIs | shinken/worker.py:197-201 | polling gives each check the status found and changes nothing else |
| Checks.FinishedIs | shinken/worker.py:201-220 | what leaves is done or timed out, what stays is neither |
| Pipelines.SatStep | shinken/worker.py:160-220 | no step inside a satellite makes a shell |
| Pipelines.CollectedStatus | shinken/scheduler.py:1332-1363 | consuming leaves checks without result alone and puts none back to be polled |
| Pipelines.StepKeeps | shinken/scheduler.py:638-656 | every step, losses included, keeps: hand-outs within re-enables plus one, results and live shells within hand-outs |
| Pipelines.HandOutsBounded | shinken/scheduler.py:1562-1569 | over every run a check is handed out at most once more than re-enabled and gets at most as many results as hand-outs |
| Pipelines.OneShell | shinken/scheduler.py:726-736 | over every run a check never re-enabled has at most one live shell; while it has one and the scheduler holds the check, it is away exactly if it was not forced |
| Pipelines.ForcedShell | shinken/objects/schedulingitem.py:769-777 | a check forced while away keeps its live shell |
| Pipelines.TwoShells | shinken/scheduler.py:1562-1569 | a check re-enabled while away can have two live shells |
| BusinessRules.EvalCorPattern | shinken/dependencynode.py:287-303 | the parser returns the tree of its specification on every string, balanced or not |
| BusinessRules.EvalComplexCorPattern | shinken/dependencynode.py:329-442 | the same for a pattern with operators, after its of: prefix |
| BusinessRules.EvalCharacters | shinken/dependencynode.py:338-442 | the character loop computes the recursive scan and recurses only on shorter patterns |
| BusinessRuleRoundTrip.XofSome | shinken/dependencynode.py:307-324 | a printed quota is read back with its values and the pattern behind it |
| BusinessRuleRoundTrip.RoundTrip | shinken/dependencynode.py:287-484 | printing any rule of &, \|, Kof: and A,B,Cof: with negated sons and parsing the text gives the rule back |
| BusinessRuleMalformed.MixedOperators | shinken/dependencynode.py:401-410 | once two sons are joined by one operator the other one makes the text None, whatever follows |
| BusinessRuleMalformed.NegatedNothing | shinken/dependencynode.py:365-373 | a sub-expression that is None raises an error if it is negated |
| BusinessRuleMalformed.MisplacedMark | shinken/dependencynode.py:391-398 | a `!` behind the beginning of a name is dropped and negates nothing |
| BusinessRuleMalformed.AnySeparator | shinken/dependencynode.py:401-420 | on an of: level & and \| only separate |
| BusinessRules.NegatedLeaf | shinken/dependencynode.py:454-456 | a leading `!` negates the leaf and is no part of its name |
| BusinessRules.HostFlags | shinken/dependencynode.py:458-458 | flags or a star before a colon make a pattern to be expanded |
| BusinessRules.ServiceFlags | shinken/dependencynode.py:459-459 | so do a star, or flags before a colon, behind a comma |
| BusinessRules.PlainNames | shinken/dependencynode.py:458-459 | no other name is expanded: none without a colon or a star at its end, and no host that starts with anything else |
| RuleStates.StateInRange | shinken/dependencynode.py:80-152 | a rule over services is itself OK, WARNING or CRITICAL |
| RuleStates.PushState | shinken/dependencynode.py:66-152 | pushing negation down through & and \| changes no state, and asking for the negation mirrors it |
| RuleStates.OfStateIs | shinken/dependencynode.py:156-231 | an of: level is critical if enough sons are, else warning if enough are at least that, else OK for A,B,C or if enough are OK, else the worst of them |
| RuleStates.AppliesIs | shinken/dependencynode.py:156-204 | when enough sons are found, in numbers: counts and percentages, negative ones from all sons down |
| RuleStates.ItemTable | shinken/dependencynode.py:80-127 | the state of a host or service, negated or not, value by value |
| RuleStates.OneOfIsOr | shinken/dependencynode.py:156-231 | a simple 1of: rule equals the \| of its sons |
| RuleStates.PlainOperatorsMonotone | shinken/dependencynode.py:129-231 | &, \| and A,B,Cof: are monotone |
| RuleStates.SimpleOfMonotone | shinken/dependencynode.py:156-258 | a simple Kof: rule is monotone exactly if it has one son or one OK son is enough |
| RuleStates.RuleMonotone | shinken/dependencynode.py:80-231 | a rule without negation or simple Kof: never improves when its leaves get worse |
| BusinessRuleMeaning.TextMeans | shinken/dependencynode.py:66-442 | parsing the text of any rule and evaluating the tree gives the state the text describes: the worst or best of the sons, or for of: what the numbers of critical, warning and OK sons give against the digits of its quota |
| BusinessRuleMeaning.QuotaMeans | shinken/dependencynode.py:156-273 | evaluating an of: level is comparing the numbers of its critical, warning and OK sons with the digits of its quota |
| BusinessRuleMeaning.QuotaRead | shinken/dependencynode.py:170-273 | the values in the parsed node are the quota's numbers, zeros standing for all sons |
| BusinessRuleMeaning.OneOfText | shinken/dependencynode.py:156-231 | the text 1of: of sons has the state of their \| text |
| BusinessRuleMeaning.TextMonotone | shinken/dependencynode.py:80-231 | the state of a text without negation or simple Kof: never improves when hosts or services get worse |
| GroupExpressions.EvalCorPattern | shinken/complexexpression.py:123-153 | the parser returns the tree of its specification on every string |
| GroupExpressions.EvalCharacters | shinken/complexexpression.py:155-248 | the character loop computes the recursive scan and recurses only on shorter patterns |
| GroupExpressions.ResolveElements | shinken/complexexpression.py:53-98 | the accumulating loops compute the recursive resolution |
| GroupExpressionMeaning.RoundTrip | shinken/complexexpression.py:123-248 | parsing the text of an expression gives its tree, mixed operators included |
| GroupExpressionMeaning.ResolveLevel | shinken/complexexpression.py:63-98 | an element is in a level exactly if it is in some, or all, positive sons and in no negated one |
| GroupExpressionMeaning.ResolvedIsMeaning | shinken/complexexpression.py:53-248 | resolving the parsed text gives exactly the elements the expression means, at every depth: those in some positive son and in no negated one, and in all positive sons where the last separator is & or + |
| GroupExpressionMeaning.LastOperatorWins | shinken/complexexpression.py:160-190 | on a level with mixed operators only the last one counts |
| Downtimes.Downtime.constructor | shinken/downtime.py:75-107 | a triggered downtime is never fixed, a fixed one lasts from start to end, none starts in effect |
| Downtimes.Downtime.Enter | shinken/downtime.py:133-147 | exactly the downtime and all it triggers enter into effect, flexible ones last from now on, and every depth still counts the downtimes in effect |
| Downtimes.BelowClosed | shinken/downtime.py:145-146 | with a downtime goes everything that it triggers, at any depth |
| Downtimes.Downtime.Exit | shinken/downtime.py:150-171 | exactly this downtime ends, depths agree, it can be deleted |
| Downtimes.Downtime.Cancel | shinken/downtime.py:175-190 | exactly the downtime and all it triggers end and can be deleted; depths keep their surplus exactly if all of it was in effect |
| Downtimes.CreatedLinked | shinken/downtime.py:123-124 | triggering by an earlier downtime keeps a creation-ordered forest |
| Downtimes.Scheduler.ScheduleDowntime | shinken/external_command.py:1742-1749 | the downtime asked for is registered, joins the forest under its trigger, the invariant of all runs holds, and depths agree with the items' lists exactly if they did |
| Downtimes.Scheduler.UpdateDowntimes | shinken/scheduler.py:1478-1494 | in any dictionary order: a registered fixed downtime that is not marked and whose time it is is in effect afterwards; one newly in effect is such a one that started, or triggered by it; one that is over is out of effect and dropped unless a starting one triggers it. Each downtime has its exact outcome, exactly the marked ones are dropped, and depths agree with the items' lists exactly if every downtime endures, a condition on the state before |
| Downtimes.PassOutcome | shinken/scheduler.py:1478-1486 | turn by turn the loop ends up where the outcome says, from the state before the pass alone |
| Downtimes.OutcomeMeans | shinken/scheduler.py:1478-1486 | the outcome on the fields: when a downtime must be in effect, when it may newly be, and when it must have ended and be marked |
| Downtimes.PassFacts | shinken/scheduler.py:1478-1486 | what a starting downtime does to those it triggers, and that a pass ends and marks only what is over |
| Downtimes.EnduresExactly | shinken/scheduler.py:1478-1494 | a pass leaves a downtime in effect without dropping it exactly if it endures |
| Downtimes.Scheduler.DepthAgrees | shinken/downtime.py:133-147 | each depth is the number of downtimes in effect on the item's own list exactly if nothing in effect was dropped |
| Downtimes.ReenteredAfterCancel | shinken/objects/schedulingitem.py:945-955 | a run after which an item stays in downtime though it lists none |
| Downtimes.EnteredAfterDrop | shinken/downtime.py:145-146 | a run after which an item is one deeper in downtime than its list says |
| Downtimes.Scheduler.CheckForFlexibleDowntime | shinken/objects/schedulingitem.py:945-955 | exactly the due flexible downtimes of the item start, with all they trigger, flexible ones for their duration from now on; depths then agree with the lists exactly if they did and nothing dropped is started |
| Downtimes.Scheduler.CancelDowntime | shinken/external_command.py:1031-1043 | exactly the downtime and all it triggers end and can be deleted; the invariant holds afterwards, and depths agree with the lists again, exactly if all of it was in effect |
| Dateranges.IsTimeValid | shinken/daterange.py:178-187 | valid exactly on an admitted day at a covered second |
| Dateranges.AdmitsIs | shinken/daterange.py:178-187 | an instant is admitted exactly if its day is between the ends, or has the weekday counted from Thursday 1 January 1970, and its second is between the ends of a time range |
| Dateranges.KnownWeekdays | shinken/daterange.py:420-431 | 1 January 1970 is a Thursday, 1 January 2024 a Monday, and weekdays follow one another |
| Dateranges.GetNextFutureTimerangeValid | shinken/daterange.py:222-233 | the least start of a time range from this second on |
| Dateranges.WeekdayFrom | shinken/daterange.py:420-431 | the first day from here on that falls on the weekday |
| Dateranges.GetNextValidDay | shinken/daterange.py:256-268 | a weekly range gives the first of its days, from tomorrow on if no time range starts any more today; a calendar range the first of its days from today on, None exactly if there is none; a backwards one its start if that is to come |
| Dateranges.GetNextValidTimeFromT | shinken/daterange.py:270-303 | the least valid instant from here on, or None exactly if there is none, wherever the range is searchable |
| Dateranges.NextIsLeast | shinken/daterange.py:270-303 | the same for every weekly and calendar range whose starts are covered |
| Dateranges.LeastSecond | shinken/daterange.py:270-303 | the same counted in seconds |
| Dateranges.CalendarRightIff | shinken/daterange.py:263-268 | a calendar range is searched rightly exactly if it is not backwards or starts before the instant |
| Dateranges.RightEverywhereIff | shinken/daterange.py:270-303 | the search is right everywhere exactly if every start is covered and the calendar is not backwards |
| Dateranges.BackwardsCalendar | shinken/daterange.py:263-264 | a backwards calendar range yields an instant though it admits none |
| Dateranges.UncoveredStart | shinken/daterange.py:226-231 | a start that no range covers is returned as valid |
| Dateranges.WellFormedCovered | shinken/daterange.py:102-107 | ranges that start before they end have covered starts |
| SplitSemicolons.SplitSemicolon | shinken/util.py:66-105 | the edited list is the fields read character by character; a limit below their number leaves that many and joins all from there on |
| SplitSemicolons.LimitedMerge | shinken/util.py:75-103 | a limit gives the unlimited result with all parts from it on rejoined |
| SplitSemicolons.UnlimitedIsFields | shinken/util.py:69-105 | joining raw parts at backslashes reads the line as its characters say |
| SplitSemicolons.SplitEscaped | shinken/util.py:66-105 | splitting the escaped join of any fields: one that ends in a backslash swallows the next |
| SplitSemicolons.RoundTripIff | shinken/util.py:66-105 | the fields come back exactly if none but the last ends in a backslash |
| CommandPipes.CommandPipe.Get | shinken/external_command.py:460-479 | one read emits the complete lines and keeps a fragment exactly if it got 8096 characters and the last one ends no line |
| CommandPipes.Reassembly | shinken/external_command.py:460-479 | however the stream is cut, the commands returned and the line still pending are its non-empty lines exactly if no line is torn; each tear adds one |
| CommandPipes.PendingIff | shinken/external_command.py:468-471 | a line is still pending exactly if the last read filled the buffer and stopped inside it |
| CommandPipes.WholeNotTorn | shinken/external_command.py:468-474 | reads that come back short only at line ends tear nothing |
| SortedDicts.SortedDict.constructor | shinken/sorteddict.py:55-59 | the index holds exactly the keys, each once, rising |
| SortedDicts.SortedDict.SetItem | shinken/sorteddict.py:71-75 | the plain map update, index kept |
| SortedDicts.SortedDict.DelItem | shinken/sorteddict.py:78-80 | the plain map deletion, index kept; a missing key changes nothing |
| SortedDicts.SortedDict.Clear | shinken/sorteddict.py:118-120 | empty, index kept |
| SortedDicts.SortedDict.Pop | shinken/sorteddict.py:132-135 | the plain map removal and its value, index kept |
| SortedDicts.SortedDict.PopItem | shinken/sorteddict.py:137-145 | the pair with the largest key leaves, index kept |
| SortedDicts.SortedDict.SetDefault | shinken/sorteddict.py:148-151 | a missing key gets the default, index kept |
| SortedDicts.SortedDict.Update | shinken/sorteddict.py:154-164 | the value of each key is that of its last pair, or the old one if it has none; the index is kept exactly if only keys already there come twice |
| SortedDicts.UpdatedLast | shinken/sorteddict.py:162 | a key has the value of its last pair |
| SortedDicts.UpdateIndexes | shinken/sorteddict.py:157-164 | the same as a law of the key lists |
| SortedDicts.NewKeysDistinct | shinken/sorteddict.py:157-162 | the new keys are distinct exactly if only keys already there come twice |
| SortedDicts.MappingDistinct | shinken/sorteddict.py:155-157 | a mapping always has distinct new keys |
| SortedDicts.SortedDict.Items | shinken/sorteddict.py:82-115 | every pair once, in the order of the keys or its reverse |
| SortedDicts.SortedDict.LargestItem | shinken/sorteddict.py:166-177 | the pair whose key no other exceeds |
| SortedDicts.SortedDict.SmallestItem | shinken/sorteddict.py:179-190 | the pair whose key exceeds no other |
| SortedDicts.SortedUnique | shinken/sorteddict.py:55-164 | the index depends only on the dictionary, not on its history |

## Left out

- HTTP, processes, signals, logging, statistics, databases, retention, the command line and plugins: plumbing.
- Receivers' own first configuration, arbiters and `check_bad_dispatch` in the dispatcher: they share no state with the links and books.
- The three tables that a realm keeps per kind and configuration are one record per configuration in the model; the source always fills them together.
- What is written into a satellite's configuration package, and the messages of the dispatcher.
- Assumed of an installation: each configuration is in one realm and has its own id, satellites and schedulers are listed once, and `alive` changes only in `check_alive`.
- Notifications and event handlers in the pipeline: they follow the path of checks with another dictionary. Passive results and business-rule checks never leave the scheduler.
- Passive satellites, whose results the scheduler fetches.
- Requeueing after the death of a worker: nothing fills the dictionary it reads, so its shells are lost in the model as in the source.
- A result that was sent but not acknowledged counts as not delivered.
- Assumed of hosts and services: consuming a result never puts a check back to be polled.
- BusinessRuleRoundTrip.RoundTrip: white space and digits are the ASCII ones, and a leaf name has no metacharacter, no `of:` and no expansion flags.
- BusinessRuleMeaning.TextMeans: every name finds one host or service; unknown names are rejected when the configuration is read.
- What an expanded leaf finds (only which leaves are expanded is modelled), macros inside rules, and the rule's elements list.
- RuleStates.SimpleOfMonotone: percentages are exact, not floating point.
- Laws for negated host leaves: DOWN becomes CRITICAL before the negation, so negation is no inversion there.
- GroupExpressions.ResolveElements: does not model the default operator written into the node, which a second resolution would read back as the same operator.
- GroupExpressionMeaning.ResolvedIsMeaning: group names are single lines without metacharacters or a leading `!`; `*` is a name like any other.
- Dateranges.GetNextValidTimeFromT: days have 86400 seconds and a date is its day number; no clock changes. Ranges that start at 24:00 or later are excluded.
- Month and week-of-month date ranges, and `get_next_invalid_time_from_t`.
- Downtimes.Scheduler.ScheduleDowntime: ids are fresh and differ from the trigger id; notifications, comments and contact downtimes are left out.
- SortedDicts.SortedDict.Items: keys are integers, one instance of an ordered type.
- Macro resolution, the brok buffer limit and `clean_queues`: easy, or not what they claim.
