# Verified model of the EMIC energy backend, collector and scripts

This Dafny project models the stateful and text-transforming parts of the repository and proves
what they are relied on for. `dafny verify dfyconfig.toml` checks all of it.

Each module is one component. Code that mutates objects is a class with the same fields
(`RateLimits`, `FastLane`, `BridgeCycles`, `WorkerBootstrap`, `DedupMigration`, `DashboardCaches`,
`FetchGuard`); code that loops is a method with a loop, proved equal to a specification function, and
the theorems are lemmas about that function. Interleaved `asyncio` handlers are state machines whose
steps are the segments between awaits, and the class methods are proved to take exactly those steps.

| module | component |
|---|---|
| `ImportRewriter` | `migrate_schema_imports.py` |
| `ImportRepair` | `repair_schema_imports.py` |
| `RateLimits` | `WidgetRateLimiter`, `DisplayRateLimiter` (the same code, so the same class), `RateLimitStore` |
| `FastLane` | the collector's fast lane, the dirty-site registry, the periodic reconcile |
| `BridgeCycles` | the virtual bridge cycle, the EMS shadow simulation, and the lane that runs both on one session |
| `WorkerBootstrap` | the isolated worker's bootstrap and health loop |
| `DedupMigration` | migration 043 |
| `Prices` | hourly roll-up and price summaries |
| `Sparklines` | quarter-hour buckets of the display |
| `DashboardCaches` | the section cache and the overview cache |
| `FetchGuard` | the in-flight guard of artifact fetches |
| `Streams` | the snapshot and display event streams |
| `ModuleSplitter` | `split_models.py`, `split_schemas.py` |
| `SyncBackoff` | the marketplace sync loop |
| `Collections`, `Ordering`, `Grouping`, `Averages`, `Text` | shared vocabulary: sums, sorting, dictionaries of lists, means, Python string operations |

Times, prices and powers are `real`; the clock is an input that does not run backwards unless a
lemma says otherwise. What comes from outside (database rows, regular-expression matches, remote
replies, failures) is an input.

## Where the code does not do what one would expect

For each item the first member named says when it happens, for all inputs, and the one after it
shows an instance.

- **Retry hints are rounded down.** `int(60 - ...)` truncates, so a client that waits exactly the
  advertised time is accepted if and only if the remaining time was at most one second or a whole
  number of seconds; one second more always suffices (`RateLimits.RetryHintSufficesIff`,
  `ObeyingTheHintCanFail`).
- **A snapshot write or commit that fails loses dirty marks.** The drain precedes both, and both
  failures are swallowed: a pending site is served only if the cycle does not drain, or it is marked
  again, or the writer got as far as the site and the commit succeeded (`FastLane.ServedIff`,
  `WriterFailureLosesMark` and `CommitFailureLosesMarks`).
- **Records of a bridge cycle that raised are stored by the shadow loop**, because both run on one
  session and the raise is swallowed: all of them if the shadow loop commits at least once, else only
  those the cycle had committed (`BridgeCycles.BridgeStoredIff`, `ShadowLoopStoresBridgeRecord`).
- **A configured gid is checked only together with a uid** (`WorkerBootstrap.GidEnforcedIff`,
  `RunWithWrongGid`).
- **An empty session token is never sent**, so later calls go out without one, and no privilege-drop
  failure can be reported (`WorkerBootstrap.CallsCarryTheToken`, `RunWithoutToken`).
- **A denied operation is reported under a guessed stage.** Whatever was denied, the report names
  setuid or setgid by whether the message mentions setuid. It names the stage that really failed if
  and only if that stage raised the script's own error, or setuid was denied with such a message, or
  setgid with another (`WorkerBootstrap.ReportIsRightIff`). The kernel's message names no call, so a
  refused setuid is reported as setgid (`RunWithRefusedSetuid`), and so is a module file that may not
  be read, although no identity was ever configured (`RunWithDeniedLoad`).
- **Import prices in hours without a spot price disappear from the roll-up.** Their total is kept
  when every import price lies in an hour with a spot price, and for positive prices only then
  (`Prices.ImportsAreConservedIff`, `UnpricedHourVanishes`).
- **A free import is reported at the spot price**, because `0.0 or spot` is `spot`
  (`Prices.CurrentImportIsOwnIff`, `FreeImportIsReportedAtSpot`).
- **Two releases share a fetch key** exactly when they are the same, or one module id continues the
  other with an `@` and the other's version continues accordingly (`FetchGuard.SameKeyIff`,
  `KeysCanCollide`).
- **A class without a base list is filed under the wrong name** unless the last word before the first
  parenthesis of its body is its name again (`ModuleSplitter.NameOfPlainHeader`,
  `PlainClassGoesAstray`): one splitter then stops and the other files the class under `misc`,
  unless a rule happens to fit the word that was read. Type parameters become part of the name
  (`NameOfGenericClass`).

## Model

| member | source | states |
|---|---|---|
| ImportRewriter.ParseYieldsNames | scripts/migrate_schema_imports.py:40-42 | whatever the matched text is, the parsed symbols are non-empty, stripped, and free of commas and line breaks |
| ImportRewriter.ParsePrinted | scripts/migrate_schema_imports.py:41 | splitting, stripping and filtering a printed, comma-separated name list gives back the list |
| ImportRewriter.ParseAtComma | scripts/migrate_schema_imports.py:41 | the symbols of two texts with a comma between them are those of the one and then those of the other |
| ImportRewriter.ParseOne | scripts/migrate_schema_imports.py:41 | a text without a comma is one symbol, without the white space around it and with blanks for line breaks, or none if it is blank; with the law for commas this fixes the symbols of every body |
| ImportRewriter.CollectSymbolModules | scripts/migrate_schema_imports.py:16-30 | the nested loops map a symbol to the last file, in path order, that defines it, and map nothing else; `__init__` is skipped |
| ImportRewriter.LastDefinerIs | scripts/migrate_schema_imports.py:18-29 | the module of a symbol is `app.schemas.` and the stem of the last file, other than `__init__.py`, that defines it |
| ImportRewriter.NoDefiner | scripts/migrate_schema_imports.py:18-29 | a symbol no such file defines has none |
| ImportRewriter.CollectedModulesPrint | scripts/migrate_schema_imports.py:21-29 | every module that can be collected prints as one `app.schemas.` import line |
| ImportRewriter.GroupSymbols | scripts/migrate_schema_imports.py:52-57 | the `defaultdict` loop groups the names by their module, in order, each once per occurrence |
| ImportRewriter.BindingsPreserved | scripts/migrate_schema_imports.py:56-61 | the new lines import a name from a module exactly as often as the block listed it if the symbol map puts it there, and never otherwise |
| ImportRewriter.LinesAreSorted | scripts/migrate_schema_imports.py:58-61 | modules strictly increase, names under each are sorted, and there are lines exactly when there are names |
| Ordering.LexLeqIff | scripts/migrate_schema_imports.py:58-61 | the order of the sorting: one string is a prefix of the other, or has the smaller character where they first differ |
| ImportRewriter.ReadBack | scripts/migrate_schema_imports.py:58-61 | round trip: splitting the replacement at line breaks and reading each import statement gives back the modules and names |
| ImportRewriter.PrintedBindings | scripts/migrate_schema_imports.py:52-61 | the replacement text, read as Python reads it, binds each listed name as often as listed, from its own module |
| ImportRewriter.OneImportOneMatch | scripts/migrate_schema_imports.py:34-42 | what is required of the matches can be met: a file of one unparenthesised barrel import has that import as its one match, with the names of its body |
| ImportRewriter.GapsAndOriginals | scripts/migrate_schema_imports.py:39-42 | the stretches around ordered, disjoint spans together with the spans are the text: nothing is lost or repeated |
| ImportRewriter.SpliceBlock | scripts/migrate_schema_imports.py:62 | one splice with original offsets carries "all blocks from i+1 on are replaced" to "all from i on" |
| ImportRewriter.RewriteFile | scripts/migrate_schema_imports.py:46-64 | right-to-left splicing equals the simultaneous substitution of all spans; without blocks nothing happens; with unknown symbols it fails with those of the right-most such block and writes nothing |
| ImportRewriter.NothingMissingIff | scripts/migrate_schema_imports.py:53-55 | the rewrite is refused if and only if some block lists a symbol outside the map |
| ImportRewriter.MissingSymbols | scripts/migrate_schema_imports.py:51-55 | a refusal names exactly the unknown symbols of the right-most block that has any, each as often as listed, in order |
| ImportRewriter.RewriteTree | scripts/migrate_schema_imports.py:67-72 | the run over all files rewrites those before the first one with an unknown symbol, leaves it and all later ones as they were, and fails with its symbols; without one it rewrites all |
| ImportRewriter.NoBarrelFrom | scripts/migrate_schema_imports.py:33-64 | no position of the rewritten text opens a barrel import, neither inside replacements nor in kept text nor across the seams |
| ImportRewriter.SecondRunFindsNothing | scripts/migrate_schema_imports.py:33-64 | idempotence: whatever the pattern matches on the rewritten text is empty |
| ImportRewriter.LaterRunFinishes | scripts/migrate_schema_imports.py:46-72 | after a failed run, a run with a map that knows every symbol leaves the files already rewritten alone, rewrites the others, and no file has a barrel import left |
| ImportRewriter.FileBindings | scripts/migrate_schema_imports.py:46-64 | the written file, read line by line, imports what the file imported without its barrel imports plus each name those listed, as often as listed, from its own module |
| ImportRepair.ReplaceBlock | scripts/repair_schema_imports.py:42-51 | the loop returns the grouped, sorted import lines, or the block unchanged when it names nothing or an unknown symbol |
| ImportRepair.SymbolsAreNames | scripts/repair_schema_imports.py:44 | what the pattern captures on matched lines are printable names |
| ImportRepair.NameLineIff | scripts/repair_schema_imports.py:19-22 | a line is one of the name lines of the pattern, with a given name captured, iff it is one or more blanks, that capitalised name, perhaps a comma, perhaps blanks, and a line end |
| ImportRepair.CloseLineIff | scripts/repair_schema_imports.py:20 | a line is the closing line iff it is a parenthesis, perhaps blanks, and a line end |
| ImportRepair.OrphanIff | scripts/repair_schema_imports.py:19-22 | a match starts at a line iff one or more name lines and then a closing line do; it is these lines, and its symbols are the names in order |
| ImportRepair.HasOrphanIff | scripts/repair_schema_imports.py:56 | the search succeeds iff such a tail starts at some line |
| ImportRepair.RepairFile | scripts/repair_schema_imports.py:54-60 | nothing is written without a match; otherwise the left-most matches, one after another, are replaced and every other line is kept |
| ImportRepair.TextUnchangedIff | scripts/repair_schema_imports.py:42-60 | a file keeps its text iff every orphaned tail in it names an unknown symbol |
| ImportRepair.RepairTwice | scripts/repair_schema_imports.py:54-60 | idempotence: repairing a repaired file changes nothing |
| ImportRepair.RepairedBindings | scripts/repair_schema_imports.py:42-60 | the repaired file imports what the file imported plus each name of the tails whose names are all known, as often as listed, from its own module |
| RateLimits.WidgetRateLimiter.Check | backend/app/widget_auth.py:76-86 | the `popleft` loop, the refusal with its hint, the fault on an empty deque and the append: verdict and new deques, all other devices untouched |
| RateLimits.RateLimitStore.Check | backend/app/rate_limits.py:14-20 | verdict and new hits of the minimum-spacing store |
| RateLimits.StorePassesIff | backend/app/rate_limits.py:14-20 | for every interval, run and clock: a request passes iff none of its key has passed before or the last that did is at least the interval ago |
| RateLimits.WindowTracksHistory | backend/app/widget_auth.py:72-86 | refinement: at every moment from the last request on, deque and full accepted history agree on everything newer than any cutoff still to come |
| RateLimits.WindowIsRecentHistory | backend/app/widget_auth.py:79-81 | the pruned deque is exactly the accepted history newer than `now - 60` |
| RateLimits.CheckKeepsTheLastMinute | backend/app/widget_auth.py:77-86 | after a check the deque is exactly the device's history of the last minute; other devices' deques have not moved |
| RateLimits.DecisionIffHistory | backend/app/widget_auth.py:82-86 | accepted iff fewer than `limit` accepted requests in the last minute; the index fault iff that minute is empty and the limit not positive; the hint comes from the oldest of them |
| RateLimits.AtMostLimitPerMinute | backend/app/widget_auth.py:76-86 | over every run, every half-open 60 s interval, wherever it ends, holds at most `limit` accepted requests of a device |
| RateLimits.RefusedMeansFull | backend/app/widget_auth.py:82-84 | at a refusal the minute holds exactly `limit` requests, never more |
| RateLimits.RetryHintIs | backend/app/widget_auth.py:83 | at every refusal the hint is the whole seconds until the oldest recent request is a minute old, but at least 1: it is 1 or not past that moment, and one second more is past it |
| RateLimits.AcceptedAgainIff | backend/app/widget_auth.py:80-86 | a later request, with none accepted in between, passes iff the oldest entry is a minute old |
| RateLimits.RetryHintPlusOneSuffices | backend/app/widget_auth.py:83-84 | the hint is in 1..60, and waiting one second longer always leads to acceptance |
| RateLimits.RetryHintSufficesIff | backend/app/widget_auth.py:83-84 | waiting exactly the hint suffices iff the remaining time was at most 1 s or a whole number of seconds |
| RateLimits.ObeyingTheHintCanFail | backend/app/widget_auth.py:83-84 | a concrete run in which a client waits the hinted 59 s and is refused again |
| RateLimits.FloorPreventsFault | backend/app/display_auth.py:104-107 | the display limit is the larger of 30 and the configured one, and with it the empty deque is never indexed; without it, it is on a first request with a non-positive limit |
| RateLimits.StoreSimulates | backend/app/rate_limits.py:14-20 | simulation: along every run the store remembers exactly the last time the limit-1 limiter accepted, key by key |
| RateLimits.StoreEqualsLimitOne | backend/app/rate_limits.py:9-20 | a store with interval 60 and a window limiter with limit 1 pass and refuse exactly the same requests |
| FastLane.Collector.MarkSiteDirty | packages/energy-core/src/energy_core/platform/events/site_refresh.py:11-13 | the registry holds exactly the marks not drained yet |
| FastLane.Collector.DrainDirtySiteIds | packages/energy-core/src/energy_core/platform/events/site_refresh.py:16-20 | returns the registry and empties it |
| FastLane.Collector.IngestReading | collector/app/collector.py:233-249 | the loop body: degraded readings, unknown slugs and inactive sites are skipped, every other reading is upserted and its site marked |
| FastLane.Collector.Ingest | collector/app/collector.py:233-249 | the loop up to its end or the reading at which it raises: upserts, marks, count and site set are those of exactly the stored readings |
| FastLane.IngestedReadings | collector/app/collector.py:233-249 | the stored readings: when the prologue returns, exactly those before the one at which ingesting raises that are actionable and name a known site running the module, each once, in reading order |
| FastLane.IngestedIff | collector/app/collector.py:233-249 | a site is upserted, marked and counted iff such a reading names it |
| FastLane.Collector.DrainAndWrite | collector/app/collector.py:270-281 | one drain of the whole registry, one write with the drained and just-read sites of the site list (all sites if there are none), and a commit: exactly what the writer wrote before it returned or raised is stored, or nothing if the commit raises |
| FastLane.Collector.WriteSites | packages/energy-core/src/energy_core/snapshots/writer.py:207-247 | the writer's loop: all snapshots in list order and their number, or those before it raises |
| FastLane.Collector.RunSnapshotLane | collector/app/collector.py:178-200 | a writer that raises part-way leaves what it wrote in the session; the failure is recorded and swallowed, a finished write yields its count and a success metric |
| FastLane.Collector.RunFastLane | collector/app/collector.py:213-285 | for every cycle, failing at any stage: the marks, drain and write it adds, the snapshots it leaves in the database, the reading count equal to the number of upserts, and whether it raises |
| FastLane.Collector.MaybeReconcileAllSites | collector/app/collector.py:121-133 | nothing without an orchestrator, the early return, and a time that is remembered only when reconciling succeeded |
| FastLane.RunIsFaithful | collector/app/collector.py:213-285 | in every run each drain takes exactly the pending marks and the very next event is a write that covers them |
| FastLane.NoMarkIsDropped | collector/app/collector.py:213-285 | over every run, failing cycles included, a mark is still pending or the first drain after it took it and handed its site, if listed, to the writer |
| FastLane.WriterListCovers | collector/app/collector.py:270-275 | a drained, marked or just-read site is in the writer's list iff it is in the cycle's site list |
| FastLane.WriterListIs | collector/app/collector.py:270-283 | the writer's list is, in site-list order, exactly the drained, marked and just-read sites, or all if there are none; stored are those written before the writer stopped, if the cycle gets there and commits |
| FastLane.PendingAfterCycle | collector/app/collector.py:213-285 | what is pending after a cycle: only later marks if neither the prologue nor ingesting nor anything before the drain raised, everything otherwise |
| FastLane.ServedIff | collector/app/collector.py:270-283 | a pending site stays pending or is stored iff something before the drain raises, or the site is marked again, or the commit succeeds and the writer got to the site's place in its list; with a writer that returns, iff the site is listed |
| FastLane.WriterFailureLosesMark | collector/app/collector.py:270-281 | two dirty sites and a writer that raises at the second: the first is stored, the second is neither pending nor stored |
| FastLane.CommitFailureLosesMarks | collector/app/collector.py:270-283 | the same sites, a writer that returns and a commit that raises: neither is pending or stored |
| FastLane.ReconcilesAreSpaced | collector/app/collector.py:121-133 | successful reconciles start at least 120 s apart whatever the clock does, and one is attempted iff there is an orchestrator and none succeeded yet or the last is that old |
| BridgeCycles.RecordFailsafes | collector/app/collector.py:739-745 | the loop of a failed fetch makes one failsafe per enabled mapping, in order, or those before the raising call, with the raising call's own if it was saved |
| BridgeCycles.EvaluateMappings | collector/app/collector.py:749-773 | the loop of a successful fetch makes one evaluation per enabled mapping, with its EV's profile and its charger's power, or those before the raising call, with the raising call's own if it was saved; it counts them |
| BridgeCycles.BridgeSite | collector/app/collector.py:710-773 | one site: skipped, or one evaluation per enabled mapping, or one failsafe per enabled mapping and a commit |
| BridgeCycles.ShadowSite | collector/app/collector.py:789-844 | one site: skipped, or one record about its first charger, committed at once when it is a failsafe |
| BridgeCycles.RunVirtualBridgeCycle | collector/app/collector.py:700-776 | on any session: the due records are made, or those up to the raising call; the first commit takes along everything uncommitted before, without one nothing changes; a returning cycle has committed all its records, a raising one exactly those of the sites before the raising call's, up to the last whose fetch failed with records due |
| BridgeCycles.RunEmsShadowSimulation | collector/app/collector.py:778-847 | the same for the shadow loop, in particular on the session the bridge cycle has used |
| BridgeCycles.CommittedUpTo | collector/app/collector.py:739-747 | if site i is the last one with records due whose fetch failed, the commits inside the loop cover exactly the records up to and including its own |
| BridgeCycles.CommittedAtSite | collector/app/collector.py:739-775 | a loop whose raising call is one of site i has committed what it had committed before that site |
| BridgeCycles.CommitsIff | collector/app/collector.py:739-775 | a loop that returns has committed all it was due; one that raises has committed something iff a site whose calls all came before has a failed fetch and was due something |
| BridgeCycles.RaisedCommitsAtFailsafe | collector/app/collector.py:739-747 | what a raising loop has committed of its own ends with a failsafe |
| BridgeCycles.RunBridgeLane | collector/app/collector.py:316-321 | both loops on one session, each raise swallowed, what is uncommitted at the end lost: exactly what the database holds, for every pair of raising calls |
| BridgeCycles.BridgeStoredIff | collector/app/collector.py:316-321 | all records the bridge cycle made are stored iff the shadow loop commits at least once or the cycle left none uncommitted; otherwise exactly those the cycle committed; of the shadow loop's records exactly those it committed |
| BridgeCycles.ShadowLoopStoresBridgeRecord | collector/app/collector.py:316-321 | a site with two mappings whose second evaluation raises: nothing is stored without a shadow site, the first record is stored with one |
| BridgeCycles.LogsPerSite | collector/app/collector.py:708-773 | for each site the records of either loop are exactly the records that site is due, in order |
| BridgeCycles.NothingAboutOthers | collector/app/collector.py:708-773 | no record is about a site that is not listed |
| BridgeCycles.BridgeAndShadowPartition | collector/app/collector.py:787-847 | one record per enabled mapping of an eligible site, all of the same kind; one shadow record per shadow site; the two loops never act on the same site |
| BridgeCycles.BridgeCalls | collector/app/collector.py:708-773 | what the bridge cycle asks of the engine for each site: nothing unless all its gates are open; else one call per enabled mapping, in order, all failsafes after a failed fetch, else evaluations with the profile of the first listed EV of the mapping's id or none, the mapping's confidence, and the power of its charger or 11 kW for no id, the id 0, an unknown charger or a zero maximum |
| BridgeCycles.ShadowCall | collector/app/collector.py:787-844 | what the shadow loop asks for each site: nothing unless all its gates are open, no mapping is enabled and there is a charger; else one call about the first charger, a failsafe after a failed fetch, else an evaluation without profile, at that charger's power or 11 kW and confidence 0 |
| WorkerBootstrap.Process.DropModuleIdentity | scripts/isolated_runtime_bootstrap.py:33-49 | the branches of the privilege drop, with the identity and events each leaves, all within the protocol |
| WorkerBootstrap.DropOutcome | scripts/isolated_runtime_bootstrap.py:33-49 | by the circumstances: which calls the drop makes, in which order, what keeps it from the next one, how it ends and which ids it leaves |
| WorkerBootstrap.Process.VerifyEffectiveIdentity | scripts/isolated_runtime_bootstrap.py:52-63 | verification and the comparison after it: its outcome, and that the verified phase is reached exactly on success |
| WorkerBootstrap.VerifyIffAnnounceable | scripts/isolated_runtime_bootstrap.py:197-211 | the chained checks let through only, and for well-formed variables all, identities equal to the configured one; every other outcome is a variable that is no number or a verification error |
| WorkerBootstrap.GidEnforcedIff | scripts/isolated_runtime_bootstrap.py:53-63 | a configured gid is enforced iff a uid is configured with it |
| WorkerBootstrap.RunWithWrongGid | scripts/isolated_runtime_bootstrap.py:33-63 | with a non-zero gid and no uid configured, a root process loads the module and serves with gid 0 |
| WorkerBootstrap.Process.Secure | scripts/isolated_runtime_bootstrap.py:182-203 | handshake to verification: the first failing step decides, and success means verified |
| WorkerBootstrap.FirstFailureDecides | scripts/isolated_runtime_bootstrap.py:182-234 | the `try` block ends as the first failing one of its nine steps, in the order of the script, and returns iff none fails |
| WorkerBootstrap.Process.Present | scripts/isolated_runtime_bootstrap.py:204-234 | announce, load, start, present: the first failing step and the phase it leaves |
| WorkerBootstrap.Process.HandleFailure | scripts/isolated_runtime_bootstrap.py:235-259 | a report iff there is a token and the failure is a privilege-drop error or a denied operation; exit status 1 or re-raise |
| WorkerBootstrap.Process.ServeHealth | scripts/isolated_runtime_bootstrap.py:261-275 | the health loop goes on iff every call (unless switched off) and every tick returns, with one of each per round |
| WorkerBootstrap.Process.RunMain | scripts/isolated_runtime_bootstrap.py:167-275 | for every environment and every combination of failures the trace obeys the protocol; unreadable configuration ends the process before its first call; otherwise exit, report with its stage and whether that is the stage that failed, module load and the identity it runs under are determined by the first failing step |
| WorkerBootstrap.LoadOnlyAfterAnnouncedIdentity | scripts/isolated_runtime_bootstrap.py:199-213 | module code is loaded only directly after BootstrapReady, which directly follows a verification of the configured identity and states that identity |
| WorkerBootstrap.SetgidBeforeSetuid | scripts/isolated_runtime_bootstrap.py:47-49 | setuid comes directly after setgid, setgid directly after clearing the supplementary groups, both with the configured ids |
| WorkerBootstrap.LoadOnlyAfterDrop | scripts/isolated_runtime_bootstrap.py:33-49 | a root process with both ids configured loads module code only after clearing its groups, setting the configured group and then the configured user, one directly after the other |
| WorkerBootstrap.NoDropWithoutNeed | scripts/isolated_runtime_bootstrap.py:36-39 | any other process never changes its groups or ids |
| WorkerBootstrap.CallsCarryTheToken | scripts/isolated_runtime_bootstrap.py:114-117 | the handshake is first and carries no token; every other call carries the handshake's token iff that token is not empty |
| WorkerBootstrap.RunWithoutToken | scripts/isolated_runtime_bootstrap.py:114-117 | a run with an empty token and no ids configured: the module is loaded and served, and no call carries a token |
| WorkerBootstrap.HealthOnlyAfterModuleReady | scripts/isolated_runtime_bootstrap.py:225-275 | health calls and ticks come only after ReportModuleReady |
| WorkerBootstrap.HealthAlternates | scripts/isolated_runtime_bootstrap.py:261-275 | each tick directly follows a health call, unless these are switched off and there are none; each health call directly follows a tick or ReportModuleReady |
| WorkerBootstrap.ReportIsLast | scripts/isolated_runtime_bootstrap.py:235-259 | a privilege-drop report is the last event of its trace, so there is at most one |
| WorkerBootstrap.ReportIsRightIff | scripts/isolated_runtime_bootstrap.py:235-258 | for every run: a reported failure is reported under the part of the drop or verification that really failed first iff that part raised a privilege-drop error, or was a denied setuid whose lower-cased message mentions setuid, or a denied setgid whose message does not; never when something else failed |
| WorkerBootstrap.FailedStageIs | scripts/isolated_runtime_bootstrap.py:33-63 | which part of the drop or its verification failed first, by the outcomes of the steps |
| WorkerBootstrap.StageOfDenied | scripts/isolated_runtime_bootstrap.py:247-249 | a denied operation is reported as setuid iff its message contains that word in whatever case, and as setgid otherwise |
| WorkerBootstrap.QuietMessageMeansSetgid | scripts/isolated_runtime_bootstrap.py:249 | a message without the letter `u`, as the errno messages are, is one that does not mention setuid |
| WorkerBootstrap.RunWithRefusedSetuid | scripts/isolated_runtime_bootstrap.py:247-259 | a run in which the kernel refuses setuid: its last event is a report naming setgid, and the exception is raised again |
| WorkerBootstrap.RunWithDeniedLoad | scripts/isolated_runtime_bootstrap.py:247-259 | a run without configured ids whose module file may not be read: its last event is a report naming setgid, though no stage of the drop failed |
| DedupMigration.Database.Upgrade | alembic/versions/043_heartbeat_ev_mappings_unique.py:13-32 | the index is always created, and the table is exactly the newest row of each pair, unchanged |
| DedupMigration.Database.CreatePairIndex | alembic/versions/043_heartbeat_ev_mappings_unique.py:27-32 | creating the unique index succeeds iff no two rows share a pair |
| DedupMigration.Database.Downgrade | alembic/versions/043_heartbeat_ev_mappings_unique.py:35-36 | drops the index and touches no row |
| DedupMigration.KeepsExactlyNewest | alembic/versions/043_heartbeat_ev_mappings_unique.py:16-24 | the self-join DELETE keeps a row iff no row of the same pair has a larger id |
| DedupMigration.NoGroupDisappears | alembic/versions/043_heartbeat_ev_mappings_unique.py:16-24 | every row's pair keeps a row at least as new |
| DedupMigration.SecondRunDeletesNothing | alembic/versions/043_heartbeat_ev_mappings_unique.py:16-24 | the DELETE is idempotent, and deletes nothing iff pairs were unique |
| DedupMigration.OneRowPerPair | alembic/versions/043_heartbeat_ev_mappings_unique.py:16-24 | the set of pairs is kept and the row count becomes the number of pairs |
| Prices.RollupHourly | backend/app/api/prices.py:81-137 | the two loops compute the specified roll-up |
| Prices.BucketByHour | backend/app/api/prices.py:85-91 | each hour's bucket is exactly the periods of that hour, in order |
| Prices.AverageBuckets | backend/app/api/prices.py:95-137 | one averaged point per hour with a spot price, in hour order |
| Prices.HourIsUnique | packages/energy-core/src/energy_core/price_engine/periods.py:11-18 | a time lies in exactly one hour, the whole hour at or before it |
| Prices.RollupTimes | backend/app/api/prices.py:97-109 | an hour has a point iff it is a whole hour containing a period with a spot price |
| Prices.HourFigures | backend/app/api/prices.py:81-137 | each figure of an hourly point is the mean over exactly the periods of that hour that have the price in question, and missing iff none has; the two EUR figures, times the rate, are the means of spot and import price |
| Prices.InHourIff | backend/app/api/prices.py:95-111 | there is such a price iff some period of the hour has one |
| Prices.RollupIncreases | backend/app/api/prices.py:97-135 | the points' hours strictly increase |
| Prices.PointOfPeriod | backend/app/api/prices.py:47-75 | a single period has a point iff it has a spot price, with the same prices; those in EUR, times the rate, are the spot and import price |
| Prices.SpotsAreConserved | backend/app/api/prices.py:101-111 | the hourly means times their counts add up to the sum of all present spot prices |
| Prices.ImportsAreConservedUpToUnpricedHours | backend/app/api/prices.py:103-113 | the hourly import means times their counts plus the import prices of hours without a spot price add up to the sum of all import prices |
| Prices.ImportsAreConservedIff | backend/app/api/prices.py:101-113 | import prices are conserved if every period with one lies in an hour with a spot price, and for positive prices only if; then none can be gained |
| Prices.UnpricedHourVanishes | backend/app/api/prices.py:107-109 | two quarter hours with import prices 1 and 2 and no spot price: the roll-up is empty |
| Prices.RollupNarrows | backend/app/api/prices.py:47-137 | any bounds on the quarter-hour points' spot prices hold for the hourly points, in SEK and in EUR |
| Prices.ClosestIndex | backend/app/api/prices.py:155-165 | the first point at the smallest distance |
| Prices.EurSummaryIsOrdered | backend/app/api/prices.py:171-191 | the current price is that of the first point closest in time; average, highest and lowest appear together, iff some point has an all-in price: the mean of those prices and, among them, those that bound all others, with lowest <= average <= highest |
| Prices.AllInsAre | backend/app/api/prices.py:171-191 | the prices averaged and compared are the all-in prices of the points that have one, each once, in order |
| Prices.CurrentImportIsOwnIff | backend/app/api/prices.py:213-215 | the reported import price is the point's own iff it is not zero or equals the spot price, and otherwise the spot price |
| Prices.FreeImportIsReportedAtSpot | backend/app/api/prices.py:213-215 | a concrete point with a free import that is reported at the spot price |
| Sparklines.AddRow | backend/app/display_service.py:154-166 | the loop body: which cells of the nested dictionaries grow by what |
| Sparklines.FillBuckets | backend/app/display_service.py:152-166 | after the loop every cell holds exactly the values of its bucket and series, in reading order |
| Sparklines.BuildSeries | backend/app/display_service.py:168-181 | the inner function computes the specified series |
| Sparklines.SparklinesForToday | backend/app/display_service.py:147-188 | nothing for fewer than two readings, else the four series |
| Sparklines.BucketIsUnique | backend/app/display_service.py:161 | a reading falls in the one multiple of 15 minutes with start <= t < start + 15 min |
| Sparklines.SeriesTimes | backend/app/display_service.py:157-181 | each series strictly increases, and has a point at a time iff that is a multiple of 15 minutes and some reading with a value falls there |
| Sparklines.SharedTimes | backend/app/display_service.py:162-166 | solar, house and grid have points at the same times, battery at a subset of them |
| Sparklines.SeriesFigures | backend/app/display_service.py:152-180 | each point is the mean over exactly the readings of its quarter hour: of solar production, of consumption, of grid export less import, with zero for missing powers, and of the state of charge over readings that have one |
| Sparklines.ReadingsAreConserved | backend/app/display_service.py:170-180 | bucket means times their counts add up to the sum of all readings of the series |
| DashboardCaches.Caches.CacheGet | backend/app/dashboard_compute.py:40-50 | a hit iff the ttl is positive and something at most that old is stored for the key |
| DashboardCaches.Caches.CacheSet | backend/app/dashboard_compute.py:53-54 | one entry is replaced, with the current time |
| DashboardCaches.StoredSectionIsServed | backend/app/dashboard_compute.py:31-54 | after any run, a stored section that no other of its kind and slug has replaced is found for exactly 60, 300 or 900 s |
| DashboardCaches.FinishedOverviewIsServed | backend/app/display_service.py:588-731 | after any run, a finished overview that no later build of its slug has replaced is found for exactly 3 s |
| DashboardCaches.Caches.BeginBuild | backend/app/display_service.py:588-593 | the segment up to the first await: the cached overview is returned iff at most 3 s old, else a build starts; the state machine's step |
| DashboardCaches.Caches.BeginCompute | backend/app/dashboard_compute.py:274-279 | the segment that looks for a cached section: found iff at most 60, 300 or 900 s old, and then the build's; the state machine's step |
| DashboardCaches.Caches.EndCompute | backend/app/dashboard_compute.py:279-281 | the segment that stores a computed section with the current time and gives it to its build; the state machine's step |
| DashboardCaches.Caches.EndBuild | backend/app/display_service.py:684-731 | the segment that caches and returns the overview of the build's sections and ends the build; the state machine's step |
| DashboardCaches.Caches.AbandonBuild | backend/app/display_service.py:593-595 | a build that ends without an overview takes the state machine's step and leaves both caches alone |
| DashboardCaches.StepInv | backend/app/display_service.py:588-731 | every segment of every handler keeps the freshness invariant of both caches and of all unfinished builds |
| DashboardCaches.AlwaysInv | backend/app/display_service.py:588-731 | so it holds after every interleaving of any number of builds and computations |
| DashboardCaches.ServedSectionsAreFresh | backend/app/display_service.py:588-591 | a section inside a served overview was stored for that slug at most 3 s plus the build's duration plus the section's ttl ago: 303 s for prices and 903 s for solar, plus the build |
| DashboardCaches.BuiltSectionsAreFresh | backend/app/display_service.py:684-731 | a section of an overview served as its build ends was stored for that slug at most the build's duration plus the section's ttl ago |
| FetchGuard.FetchService.BeginFetch | backend/app/api/marketplace_distribution.py:135-154 | the segment up to the first await: 503 iff switched off, else 409 iff the key is taken, else the key is taken; the state machine's step |
| FetchGuard.FetchService.ResumeFetch | backend/app/api/marketplace_distribution.py:147-193 | every later segment, through `finally` at every exit, takes the state machine's step |
| FetchGuard.AlwaysGuarded | backend/app/api/marketplace_distribution.py:140-193 | after every interleaving the set is exactly the keys of handlers past the check, and no key has two holders |
| FetchGuard.ConflictIffHeld | backend/app/api/marketplace_distribution.py:140-146 | an enabled request gets 409 iff some handler holds its key, and then nothing else changes |
| FetchGuard.RefusedStaysOut | backend/app/api/marketplace_distribution.py:141-145 | a refused request can never free the holder's key, whatever is scheduled later |
| FetchGuard.EndFreesExactlyItsKey | backend/app/api/marketplace_distribution.py:192-193 | a holder that ends frees its own key and no other, whatever the way it ends |
| FetchGuard.NothingLeaks | backend/app/api/marketplace_distribution.py:192-193 | when no handler is left the set is empty |
| FetchGuard.HolderEnds | backend/app/api/marketplace_distribution.py:147-193 | any three await results end any holder |
| FetchGuard.FetchOutcome | backend/app/api/marketplace_distribution.py:147-193 | the request ends with 200 iff all its awaits return, with 422 iff staging raises a distribution error and auditing that returns, and else with the exception |
| FetchGuard.SameKeyIff | backend/app/api/marketplace_distribution.py:140 | two requests share a key iff they are for the same release, or one module id is the other's followed by `@` and some x, and the other's version is x, `@` and the one's |
| FetchGuard.KeyTellsApart | backend/app/api/marketplace_distribution.py:140 | keys are equal iff module and version are, for module ids without `@` |
| FetchGuard.KeysCanCollide | backend/app/api/marketplace_distribution.py:140 | two different releases with the same key |
| Streams.SnapshotStream | backend/app/api/snapshot.py:48-86 | both phases together send exactly the observed payloads whose stamp differs from that of the one before |
| Streams.DisplayStream | backend/app/api/display.py:42-87 | the same for overviews, with its own exits: a missing overview ends the push loop but not the stream, a hang-up ends both |
| Streams.SnapshotLooksAt | backend/app/api/snapshot.py:64-86 | which payloads the snapshot generator looks at: the first snapshot, then what each push event carries or else the snapshot loaded for it, then the polled snapshots, up to where the client is found gone |
| Streams.DisplayLooksAt | backend/app/api/display.py:42-87 | which overviews the display generator looks at, up to a hang-up or a missing overview |
| Streams.FormatPayload | backend/app/api/snapshot.py:56-62 | the closure remembers the payload's stamp and yields it iff that differs from the remembered one |
| Streams.PushPhase | backend/app/api/snapshot.py:69-76 | the push loop keeps the client up to date and stops exactly when the client is gone |
| Streams.PollPhase | backend/app/api/snapshot.py:80-86 | the polling loop keeps the client up to date, with the stamp carried over from the push phase |
| Streams.TurnPhase | backend/app/api/display.py:68-87 | either display loop keeps the client up to date and ends on hang-up or a missing overview |
| Streams.LastSentIsLastObserved | backend/app/api/snapshot.py:54-62 | the last stamp sent is the last one observed |
| Streams.NoRepeats | backend/app/api/snapshot.py:58-62 | no two adjacent sends share a stamp, and the first payload sent has one |
| Streams.SentGrows | backend/app/api/snapshot.py:64-86 | later observations only append to what was sent |
| Streams.SilentIffStampless | backend/app/api/snapshot.py:58-62 | nothing is sent iff no observed payload has a stamp |
| Streams.SentStamps | backend/app/api/snapshot.py:54-62 | the stamps sent are the stamps observed with adjacent repeats and leading missing stamps removed |
| ModuleSplitter.FirstClass | scripts/split_models.py:65 | the first class line, or none exactly when there is none |
| ModuleSplitter.ClassLineIff | scripts/split_models.py:65-71 | a class line is one that begins with the word `class` and a blank |
| ModuleSplitter.CutBlocks | scripts/split_models.py:68-77 | nothing is lost: before trimming the blocks concatenate to the lines, each opens with a class line and holds no other; the result is each block joined and right-trimmed |
| ModuleSplitter.CutIsUnique | scripts/split_models.py:68-77 | there is only one way to cut lines into blocks that open with a class line and hold no other |
| ModuleSplitter.TrimmedCutIsUnique | scripts/split_schemas.py:55-64 | so the two scripts' loops, which meet the same contract, yield the same blocks |
| ModuleSplitter.TrimLosesOnlyBlanks | scripts/split_models.py:72 | trimming removes all white space at the end, and nothing else |
| ModuleSplitter.NameOfDerivedClass | scripts/split_models.py:81 | the class name of a header with a base-class list is read correctly |
| ModuleSplitter.WordBeforeParenthesis | scripts/split_models.py:81 | what is read from a header is the word before its first parenthesis |
| ModuleSplitter.NameOfGenericClass | scripts/split_models.py:81 | so type parameters in a header with a base-class list become part of the name that is read |
| ModuleSplitter.NameOfPlainClass | scripts/split_models.py:81 | for every header of the form `class X:`, the name that is read, and that it is the class's own iff the text before the body's first parenthesis, trimmed, contains white space and ends in that name as a word |
| ModuleSplitter.NameOfPlainHeader | scripts/split_models.py:81 | the same condition for every header without a parenthesis, with type parameters or blanks before the colon |
| ModuleSplitter.PlainClassGoesAstray | scripts/split_schemas.py:68 | whatever its name, a class without a base list whose first call is to `f` is read as `f`: without a fallback the partition stops, with the fallback `misc` the class goes there |
| ModuleSplitter.FirstMatchIsFirst | scripts/split_models.py:56-58 | the domain is that of the first rule with a matching prefix; none iff no rule matches |
| ModuleSplitter.PrefixMatches | scripts/split_models.py:57 | a rule matches iff one of its prefixes begins the word |
| ModuleSplitter.DomainOfWord | scripts/split_models.py:32-59 | the exact rule decides first, then the first prefix rule that matches, then the fallback |
| ModuleSplitter.UnmatchedWord | scripts/split_schemas.py:42-45 | a word no rule fits gets the fallback; there is no domain iff no rule fits and there is no fallback |
| ModuleSplitter.PartitionBlocks | scripts/split_models.py:79-83 | the `setdefault` loop groups the blocks by domain, and stops iff some class has no domain |
| ModuleSplitter.PartitionIsComplete | scripts/split_models.py:79-83 | the lists of the dictionary together hold every block exactly as often as the module did |
| ModuleSplitter.WriteFiles | scripts/split_models.py:88-91 | the writing loop writes each domain's own list, except for the skipped domain |
| ModuleSplitter.FilesHoldTheWritten | scripts/split_models.py:88-91 | the files hold each block as often as the module if its domain is written, and not at all if it is the skipped one (`base`) |
| ModuleSplitter.FilesHoldAllIff | scripts/split_models.py:88-91 | the files hold every block as often as the module iff no block is of the skipped domain |
| ModuleSplitter.PartitionIsStable | scripts/split_schemas.py:66-70 | the dictionary's domains are those of the blocks, and each list is the blocks of that domain in the module's order |
| SyncBackoff.SyncLoop | backend/app/marketplace_sync.py:27-50 | every wait is the back-off for the streak of the attempts so far; passes with the feature off are no attempts |
| SyncBackoff.StreakIsUnique | backend/app/marketplace_sync.py:34-40 | the streak is the one number of attempts since the last success or skip |
| SyncBackoff.StreakStep | backend/app/marketplace_sync.py:29-40 | what a pass does to the streak: with the feature off nothing, a success or a skip ends it, a failed or crashed sync makes it one longer |
| SyncBackoff.BackoffClosedForm | backend/app/marketplace_sync.py:43-45 | the delay is interval * 2^min(streak, 3); for negative intervals, which `packages/energy-core/src/energy_core/config.py:164` excludes, only at streaks 0 and 3 |
| SyncBackoff.BackoffBounds | backend/app/marketplace_sync.py:43-46 | for a positive interval (settings demand at least 60 s) the delay never shrinks as the streak grows, is the interval again after a success, and with jitter lies between interval and 8 * interval + min(30, 0.8 * interval) |
| SyncBackoff.JitterShare | backend/app/marketplace_sync.py:42-46 | the wait is the base delay plus, in a failing streak, the jitter's share of a tenth of it, at most of 30 s |
| Grouping.GroupBySnoc | scripts/migrate_schema_imports.py:56-57 | one `setdefault(..).append(..)` carries the dictionary of a prefix to that of one more element |
| Grouping.GroupTotalIsTotal | backend/app/api/prices.py:85-111 | group sums add up to the sum over the whole list |

## Left out

- The regular-expression engine: matches are inputs, taken to be what `finditer` promises (ordered, disjoint, each opening at a barrel import, closing at a line end and capturing its names, every barrel import in a match).
- Reading Python syntax: the schema files' top-level names are inputs, and the reader used in the round trip reads the printed `from .. import ..` form only.
- Unicode: `strip`, `rstrip` and `split` know the ASCII blanks, identifiers are ASCII, and strings are compared by code unit.
- Database, HTTP, Redis, sockets and JSON: rows, replies and failures are inputs, and a commit takes effect as a whole or not at all.
- Floating-point rounding and `round(..)` of displayed values: all figures are exact reals.
- `sek_to_eur` is division by the configured rate, which is taken to be positive.
- Time zones and naive timestamps: times are seconds or milliseconds since the epoch, in UTC.
- FastLane.Collector.RunFastLane: the market-price, energy-balance and smart-charging tasks inside the second session appear only as a point at which the cycle may fail before its drain; module sync, supervision and heartbeats only as a prologue that may raise.
- FastLane.Collector.MarkSiteDirty: marks by other tasks fall before the cycle's drain or after it, not between the drain and the write; a mark there behaves like a later one.
- The medium and slow lanes, the registry of dirty module sites and the module event listener: the same patterns with less state.
- BridgeCycles.RunVirtualBridgeCycle: only engine calls raise, before or after saving their record; other awaits that raise, commits among them, and a session that is unusable after an error are not modelled.
- FastLane.Collector.WriteSites: what the writer caches or publishes before the commit, and the solar forecast snapshots it also stores, are not part of the model.
- BridgeCycles.BridgeSite: engine inputs that do not depend on the mapping (EMS settings, optimizations, failure reason) are not part of a record, nor are the charger commands an evaluation saves.
- WorkerBootstrap.Process.RunMain: the runtime factory call is one step with `start`; a handshake token of another type that is falsy counts as the empty token; the endless loop is any finite number of rounds; `prctl` and the resource limits are one step that may fail.
- ModuleSplitter.PartitionBlocks: the scripts' rule tables are a parameter; the files' fixed headers, `__init__.py` and the fixed `base.py` are not modelled.
- DashboardCaches.AlwaysInv: of the cached sections, today, price and solar are modelled; the optimization section and the weather cache follow the same shell.
- Prices: export prices are averaged and printed, but their conservation is that of import prices over again; of `_summarize_sek` only the current import price is stated, the rest is `_summarize_eur` over again.
- Streams.SnapshotStream: the stream is its first finitely many turns; encoding of payloads is not modelled.
- SyncBackoff.SyncLoop: the jitter is an input between 0 and its bound; the loop is its first finitely many passes.
- `WidgetMetrics`, token verification, scopes, response models, route wiring, Swedish texts and every other migration: members without a deep property.
