# Verified model of the Kubernetes event exporter

The exporter receives Kubernetes events from an informer, discards those that are too old, enriches the
rest with metadata of the object they are about, sends them through a tree of routing rules to named
receivers, and hands each receiver's events to a sink in a goroutine of its own. One sink collects events
into batches. This project models that path in Dafny and proves what every run of it does.

Check everything with `dafny verify dfyconfig.toml`.

## How the model is built

State that the program updates in place is a class whose methods are proved against a specification on
values; what the program promises is then proved about the specification, over all runs.

| files | part of the exporter |
|---|---|
| BatchWriter, BatchWriterProofs, BatchWriterRetries, BatchWriterCalls, BatchWriterDelivery, BatchWriterLosses, Writer | the batch writer: specification, safety, retry accounting, what the handler is asked and what its answers do, what is handed out, what is lost, the array implementation and the BigQuery sink on top of it |
| ChannelRegistry, RegistrySafety, RegistryShutdown, DeliveryOrder, SyncRegistry | the channel based receiver registry as a transition system over all interleavings, its shutdown, and its agreement with the synchronous registry |
| Routing, RoutingPaths, RoutingPromises, Rules | the routing tree, its flattening and its places; what the documentation says about match rules; rules with patterns that are precompiled in place |
| MetadataCache | the metadata and REST mapping caches in front of the API server |
| Intake | age filter, enrichment and counters of the watcher |
| IterationOrder, KeyRewriting, DeDot, Layouts | the rewriters of JSON-like trees, for every order in which Go may range over a map |
| Pipeline | intake, routing, registry and batching sink put together |

Things outside the program are parameters: the batch handler is any function of the call number and the
batch, so it may be stateful and fail arbitrarily; regular expressions, templates and the Unicode classes
are functions; the API server is a pair of functions per call that may fail and change from call to call;
a cache may lose any entry at any moment; clocks are numbers passed in. Of API discovery the cache results
assume that its answers do not change and that it knows no group, version or kind with a bar in its name;
nothing is assumed about the references in events.

## What the proofs found out about the code

- The writer loses items in two ways: a full buffer that was flushed is emptied even if the flush kept
  items for a retry (pkg/batch/writer.go:56-59), and the flush on shutdown is not repeated
  (pkg/batch/writer.go:63-67). `FullBufferLoses` and `ShutdownLoses` construct such runs, `NothingLostIff`
  says exactly when a run loses nothing, and `AlwaysSettlesIff` for which parameters no run does: only without
  retries, or with a handler that never reports a failure.
- The BigQuery sink reports success for a batch whose file could not be written or loaded
  (pkg/sinks/bigquery.go:191-202). Such a batch is lost as a whole, whatever the retry limit (`LostLoads`).
- `Close` of the channel registry returns only if no two receivers share a name and there is at least one
  (`CloseReturnsIff`); nothing in the configuration checks that (pkg/exporter/config.go:125).
- `Close` does not wait for senders. It is certain to lose nothing if and only if no sender is pending when it
  is called (`CloseLosesNothingIff`).
- The channel registry does not keep the order of events; any order is possible for every receiver, whatever the
  others see (`AnyOrder`).
- The metadata cache is keyed by UID alone. References that share a UID, for example an empty one, are
  answered with each other's metadata (`SharedUidServesOther`).
- A BigQuery key that starts with a non-ASCII digit can stay as it is, because the test for the leading
  underscore looks at the first byte (`SanitizedIdentifierIff`, `ArabicDigitKey`).
- A negative retry limit behaves like zero in every run (`NegativeLimitIsZero`).
- The repository's README.md (lines 78-79) describes match rules the other way round than the code treats them
  (pkg/exporter/route.go:24-42). "If an event matches a rule, it goes down it's subtree" fails: the code goes
  down only if all rules match. "If all the match rules are matched, the event is passed to the receiver" holds
  as it stands, but its converse fails: every single matching rule passes the event to its receiver.
  `NotAllMatchYetSent` is an input for both, `PromisedIff` is the exact condition for one event, and
  `SubtreeEnteredIff` and `PromiseKeptIff` are those for a list of rules over all events. The model follows the
  code.
- Validation also compiles receiver names as patterns (pkg/exporter/config.go:275), though they are never matched
  with anything. A receiver named "(" makes a configuration invalid that works (`BracketReceiverInvalid`);
  `ValidationFitsUseIff` says when validation accepts exactly what can be used.

## Model

| member | source | states |
|---|---|---|
| BatchWriterProofs.SelectPartition | pkg/batch/writer.go:89-107 | every item of a batch is acknowledged, retried or dropped, exactly once |
| BatchWriterProofs.RunInv | pkg/batch/writer.go:51-110 | after every schedule and for every handler: each accepted item is in exactly one of acknowledged, dropped, abandoned and buffer; the buffer never exceeds the batch size; buffer and batches are in acceptance order with non-increasing attempts; batches are non-empty and full ones have the batch size |
| BatchWriterRetries.RetryAccounting | pkg/batch/writer.go:92-107 | the answers the handler gave about an item, in order, are: only failures, as many as its attempt, while it is buffered; at most the limit of failures and then one success, and nothing after it, if acknowledged; limit plus one failures if dropped |
| BatchWriterRetries.FateFromOutcomes | pkg/batch/writer.go:92-107 | an accepted item is acknowledged if and only if some answer about it was a success, and dropped if and only if there were limit plus one failures |
| BatchWriterRetries.HandedAtMost | pkg/batch/writer.go:95-98 | no item is handed to the handler more than the retry limit plus one times |
| BatchWriterRetries.NegativeLimitIsZero | pkg/batch/writer.go:95-98 | in every run a negative retry limit gives the same history as zero |
| BatchWriterCalls.QuietTurn | pkg/batch/writer.go:53-79 | with an empty buffer, and for a submission that fits, the handler is not called and nothing but the new item changes |
| BatchWriterCalls.TurnCalls | pkg/batch/writer.go:53-87 | every other turn calls the handler exactly once, with the values of the whole buffer in order |
| BatchWriterCalls.TurnFates | pkg/batch/writer.go:87-107 | the handler's answer at a position acknowledges the item there, drops it at the retry limit, or keeps it one attempt older, or abandons it if the turn was a submission |
| BatchWriterCalls.AnswersAreHandlers | pkg/batch/writer.go:80-92 | in every run the answers recorded for the k-th batch are those of the handler's k-th call, which was given the accepted values that the batch names, retried ones included |
| BatchWriterCalls.AckedIffHandlerSucceeded | pkg/batch/writer.go:87-107 | in every run an accepted item is acknowledged if and only if the handler answered success at a position where it was handed this item |
| BatchWriterLosses.RunLosses | pkg/batch/writer.go:55-67 | at every moment of every run the abandoned items, and after shutdown those left in the buffer, are precisely the retry survivors of the full-buffer flushes and of the shutdown flush, in order |
| BatchWriterLosses.NothingAbandonedIff | pkg/batch/writer.go:56-59 | at every moment of every run, nothing was abandoned if and only if no full-buffer flush reported a failure that asks for a retry |
| BatchWriterLosses.NothingLostIff | pkg/batch/writer.go:55-67 | a stopped writer has acknowledged or dropped everything it accepted if and only if no full-buffer or shutdown flush reported a failure that asks for a retry |
| BatchWriterLosses.FullBufferLoses | pkg/batch/writer.go:56-59 | if the handler fails for an item of a full buffer, the next submission abandons the item although it has retries left |
| BatchWriterLosses.ShutdownLoses | pkg/batch/writer.go:63-67 | if the handler fails for an item at shutdown, the item stays behind although it has retries left |
| BatchWriterLosses.AlwaysSettlesIff | pkg/batch/writer.go:51-110 | every stopped writer has settled everything if and only if there are no retries or the handler never answers false to any batch of admissible size |
| BatchWriterDelivery.ExactBatching | pkg/batch/writer.go:45-111 | with a handler that never fails, all batches followed by the buffer are the accepted items in order, at every moment of every schedule |
| BatchWriterDelivery.ShutdownDeliversAll | pkg/batch/writer.go:45-117 | with such a handler the batches of a stopped writer are everything accepted, in order; each is non-empty and at most the batch size, and exactly the batch size if a submission triggered it |
| BatchWriterDelivery.FlushSpendsBudget | pkg/batch/writer.go:92-109 | each flush of a non-empty buffer strictly decreases the attempts its items have left |
| BatchWriterDelivery.DrainBound | pkg/batch/writer.go:68-69 | whatever the handler answers, retry limit plus one consecutive ticks empty the buffer |
| WriterLoop.Writer.constructor | pkg/batch/writer.go:36-42 | a new writer is empty and has an array of the batch size, which may be zero |
| WriterLoop.Writer.Copy | pkg/batch/writer.go:80-84 | the handler is given the buffered values in order |
| WriterLoop.Writer.Compact | pkg/batch/writer.go:89-109 | the one-pass compaction in place leaves the order-preserving selection of failed, retryable items, each one attempt older |
| WriterLoop.Writer.ProcessBuffer | pkg/batch/writer.go:75-111 | moves the history by one flush; an empty buffer does not call the handler |
| WriterLoop.Writer.EmptyFullBuffer | pkg/batch/writer.go:56-59 | a full buffer is flushed and emptied, what the flush kept is abandoned |
| WriterLoop.Writer.Receive | pkg/batch/writer.go:55-62 | the select case for an item moves the history by one submission |
| WriterLoop.Writer.Finish | pkg/batch/writer.go:63-67 | the select case for the done signal flushes once and stops |
| WriterLoop.Writer.Turn | pkg/batch/writer.go:53-71 | one turn of the select statement is one step of the specification |
| WriterLoop.Writer.Loop | pkg/batch/writer.go:51-73 | the goroutine refines the specified run for every schedule |
| BigQuery.HandleBatch | pkg/sinks/bigquery.go:185-203 | the batch handler reports success for every item whether or not the load worked |
| BigQuery.LostLoads | pkg/sinks/bigquery.go:185-203 | whatever the retry limit, every acknowledged item was loaded or is lost with its one batch, and all acknowledged items were loaded, in order, if and only if every load worked |
| BigQuery.LoadedValues | pkg/sinks/bigquery.go:185-203 | the values loaded are part of those handed over, and all of them if and only if every load worked |
| BigQuery.LoadedIff | pkg/sinks/bigquery.go:185-203 | an item arrives if and only if the load of a batch it was in worked |
| BigQuery.Sink.constructor | pkg/sinks/bigquery.go:171-220 | default batch size and retry limit; the handler never fails |
| BigQuery.Sink.Send | pkg/sinks/bigquery.go:227-230 | an event is accepted after all earlier ones and no error is reported |
| BigQuery.Sink.Tick | pkg/sinks/bigquery.go:209-218 | a tick neither loses nor reorders events |
| BigQuery.Sink.Close | pkg/sinks/bigquery.go:232-234 | after Close the batches handed to the handler, put end to end, are exactly the events sent |
| RegistrySafety.BootShape | pkg/exporter/channel_registry.go:36-52 | after registration each receiver has an idle worker, and both channel tables name the last worker registered under each name |
| RegistrySafety.StepOk | pkg/exporter/channel_registry.go:25-81 | every step of every goroutine keeps the invariant: conservation per worker, serial sink calls, error count, and which workers Close has signalled |
| RegistrySafety.Reachable | pkg/exporter/channel_registry.go:25-81 | the invariant holds after every interleaving, for every list of receivers |
| RegistrySafety.SinksUsedCorrectly | pkg/exporter/channel_registry.go:52-70 | sends of one sink never overlap, nothing follows its Close, which happens once and exactly when the worker exits; SendErrors is the number of failed sends |
| RegistryShutdown.StepDecreases | pkg/exporter/channel_registry.go:52-81 | every step except a new send decreases a measure over pending sends, live workers and unsent exits |
| RegistryShutdown.RunsAreBounded | pkg/exporter/channel_registry.go:52-81 | without new sends every run is at most as long as the measure |
| RegistryShutdown.Progress | pkg/exporter/channel_registry.go:75-81 | with distinct names and a receiver there is no deadlock while Close is under way |
| RegistryShutdown.CloseCompletes | pkg/exporter/channel_registry.go:75-81 | however the goroutines are interleaved, when nothing can move Close has returned and every sink was closed once, last |
| RegistryShutdown.CloseReturnsIff | pkg/exporter/channel_registry.go:45-50 | Close can return if and only if there is a receiver and all names differ |
| RegistryShutdown.CloseLosesNothingIff | pkg/exporter/channel_registry.go:75-81 | with distinct names and a receiver: every run of Close to its end without new sends leaves no sender pending if and only if none was pending when Close was called |
| RegistryShutdown.CloseLosesAnyPart | pkg/exporter/channel_registry.go:52-81 | the sends that can be left pending when Close returns are exactly the parts of those pending when it was called, as workers go on receiving until they are signalled |
| RegistryShutdown.LateSendIsLost | pkg/exporter/channel_registry.go:25-34 | SendEvent after Close still neither blocks nor fails, but its event stays pending for ever |
| RegistryShutdown.LostAfterClose | pkg/exporter/channel_registry.go:31-33 | after Close, what was sent to a receiver is delivered or still with its sender, and no later run delivers any more |
| RegistryShutdown.RestMeansServed | pkg/exporter/channel_registry.go:52-62 | whatever the interleaving, when nothing but a new send or Close can happen any more, no sender is pending and every worker is idle |
| RegistryShutdown.Serve | pkg/exporter/channel_registry.go:52-62 | before Close such a state can be reached from everywhere without new sends |
| SyncRegistry.Registry.Register | pkg/exporter/sync_registry.go:23-29 | the name now means this sink, other names are unchanged |
| SyncRegistry.Registry.SendEvent | pkg/exporter/sync_registry.go:16-21 | the sink that the name stands for alone gets the event; an unknown name panics and changes nothing |
| SyncRegistry.Registry.SendAll | pkg/exporter/sync_registry.go:16-21 | any sequence of sends gives every sink the events sent under its names, in order |
| SyncRegistry.SinkOfOneName | pkg/exporter/sync_registry.go:16-21 | for a sink with one name these are the events sent under that name |
| SyncRegistry.Registry.Close | pkg/exporter/sync_registry.go:31-36 | every sink is closed once for each of its names |
| RegistryRefinement.RefinesSync | pkg/exporter/channel_registry.go:25-71 | in every reachable state a receiver has got part of what the synchronous registry would have given it, and all of it, as a multiset, if and only if nothing for it is under way |
| DeliveryOrder.AnyOrder | pkg/exporter/channel_registry.go:31-60 | for any sends to any receivers, the receivers can have got exactly given sequences, each event with a given success or failure, in some run if and only if each sequence is an arrangement of part of what was sent to that receiver |
| DeliveryOrder.ErrorsAreFailures | pkg/exporter/channel_registry.go:58-62 | SendErrors is the number of failures over all sinks |
| DeliveryOrder.AstrayIsStuck | pkg/exporter/channel_registry.go:25-34 | the goroutines blocked on a nil channel are exactly those of sends to names that no receiver has |
| EngineSetup.RegisterReceivers | pkg/exporter/engine.go:16-30 | both registries resolve receiver names alike, the last registration of a name counts |
| EngineSetup.RegistriesAgree | pkg/exporter/channel_registry.go:25-71 | with a sink for each receiver and the same sends, what the channel registry has delivered to a sink is part of what the synchronous registry gives it, and all of it if and only if nothing for it is under way |
| Routing.FlattenPreservesMeaning | pkg/exporter/route.go:14-43 | the sends of a tree are those of its flat list of guards that fire: no drop rule of the node or an ancestor matches, all match rules of strict ancestors match, the rule matches and has a receiver |
| Routing.MatchesIff | pkg/exporter/rule.go:66-145 | field by field, a rule matches if and only if each pattern that is set fits its own field of the event, each label and annotation pattern fits the object's value for it, and the count suffices |
| RoutingPaths.SentIff | pkg/exporter/route.go:14-43 | a receiver gets the event if and only if some place of the tree has a matching rule for it, no drop rule there or above matches, and all match rules above do |
| RoutingPaths.SubroutesInOrder | pkg/exporter/route.go:24-43 | a node sends for its own rules first and for its sub-routes in order |
| Routing.DropRulesOnlyRemove | pkg/exporter/route.go:16-21 | a drop rule added anywhere leaves a subsequence of the sends, and all of them if it does not match |
| Routing.DropOrderIrrelevant | pkg/exporter/route.go:16-21 | permuting the drop rules of a node changes nothing |
| RoutingPromises.PromisedIff | pkg/exporter/route.go:24-35 | for one event, receivers get it as if only all matching rules together could pass it on, if and only if all rules match or no matching rule has a receiver |
| RoutingPromises.MatchesTooIff | pkg/exporter/rule.go:66-145 | a rule matches whenever another does, for all events and regular expression libraries, if and only if it demands nothing the other does not |
| RoutingPromises.PromiseKeptIff | pkg/exporter/route.go:24-35 | receivers get an event only if all rules match, for all events, if and only if no rule demands anything that a rule with a receiver does not |
| RoutingPromises.SubtreeEnteredIff | pkg/exporter/route.go:37-42 | one matching rule implies that all match, so that the subtree is entered, for all events, if and only if all rules demand the same |
| RoutingPromises.NotAllMatchYetSent | pkg/exporter/route.go:24-42 | two rules and an event for which both sentences fail |
| Rules.Rule.constructor | pkg/exporter/rule.go:22-50 | a configured rule has no compiled pattern that could be wrong |
| Rules.Rule.MeansItsSource | pkg/exporter/rule.go:66-145 | however much is precompiled, a rule matches what its configured strings match |
| Routes.SourceAt | pkg/exporter/config.go:291-312 | the configured tree has the rules and sub-routes of the route in the same places |
| Rules.CompilePatternMap | pkg/exporter/config.go:223-237 | in any iteration order: an error if and only if some pattern does not compile, otherwise a right slot for every key |
| Rules.Rule.PreCompileField | pkg/exporter/config.go:242-278 | one field: error if and only if its pattern does not compile, other compiled fields stay compiled |
| Rules.Rule.PreCompileFields | pkg/exporter/config.go:242-278 | all nine fields, up to the first error |
| Rules.Rule.PreCompile | pkg/exporter/config.go:240-288 | slots stay nil or right even when it stops at an error; success if and only if every pattern of the rule compiles, and then every slot is filled |
| Routes.PreCompileRules | pkg/exporter/config.go:292-302 | the same for a list of rules |
| Routes.PreCompileTree | pkg/exporter/config.go:291-312 | the same for a route and everything below it |
| Routes.PreCompileSubroutes | pkg/exporter/config.go:304-309 | the same for nested routes |
| Routes.PreCompileRoute | pkg/exporter/config.go:291-316 | precompilation succeeds if and only if every pattern in the whole tree compiles; whether it succeeds or not, every rule keeps its meaning |
| Routes.RouteCompilesIff | pkg/exporter/config.go:291-312 | a tree compiles if and only if the rules at every place of it do |
| Routes.ValidationFitsUseIff | pkg/exporter/config.go:240-312 | a tree is valid if and only if the patterns matching uses and the receiver names compile; validity agrees with usability if and only if the names compile wherever the used patterns do |
| Routes.BracketReceiverInvalid | pkg/exporter/config.go:275 | a tree whose only pattern is the receiver "(" is invalid although it routes every event |
| Routes.IsDropped | pkg/exporter/route.go:16-21 | the first loop: whether some drop rule matches |
| Routes.SendMatches | pkg/exporter/route.go:24-35 | the second loop: one send for each matching rule with a receiver, in order, and whether all match |
| Routes.ProcessSubroutes | pkg/exporter/route.go:38-42 | the sends of all nested routes in order |
| Routes.ProcessRoute | pkg/exporter/route.go:14-43 | the sends of a route and everything below it, in order |
| Routes.ProcessEvent | pkg/exporter/route.go:14-43 | the registry gets exactly the sends of the configured tree, whatever part of it is precompiled |
| MetadataCache.MappingKeyInjective | pkg/kube/objects.go:87 | the mapping key determines group, version and kind if group and version are free of bars |
| MetadataCache.BarFreeKeyUnique | pkg/kube/objects.go:87 | no other triple at all, with bars or without, shares the key of a triple free of bars |
| MetadataCache.BarsCollide | pkg/kube/objects.go:87 | with bars different triples can share a key |
| MetadataCache.GroupAndVersion | pkg/kube/objects.go:77-85 | an API version without a slash is the version; otherwise the group is before the first slash and the version between it and the next |
| MetadataCache.UncachedAsks | pkg/kube/objects.go:77-122 | for a reference in neither cache discovery is asked for exactly its group, version and kind, and the object is read by its namespace and name |
| MetadataCache.CallTouches | pkg/kube/objects.go:67-136 | a call touches the entry of its UID and the mapping of its kind only; a failed call leaves nothing cached for the UID; a mapping that discovery gave is not asked for again |
| MetadataCache.EvictionTakesOnly | pkg/kube/objects.go:24-25 | eviction leaves all other entries alone |
| MetadataCache.MappingCounters | pkg/kube/objects.go:90-118 | a mapping read from discovery counts as read the first time and as a hit the next, and a refused one as neither |
| MetadataCache.RunFaithful | pkg/kube/objects.go:67-136 | after any calls, with any references, and any evictions every cached entry is the result of a successful fetch for its UID with its time stamp, and every cached mapping is right; failures are never cached |
| MetadataCache.BoundedStaleness | pkg/kube/objects.go:69-75 | a successful answer was returned by the API to this call or to an earlier one for the same UID that was stored less than the time to live ago |
| MetadataCache.CacheTransparent | pkg/kube/objects.go:67-136 | if UIDs identify objects, it is what the API said about that very object |
| MetadataCache.SharedUidServesOther | pkg/kube/objects.go:68-75 | for any two references that share a UID but not the object there is a cluster in which the second is answered with the first one's metadata |
| MetadataCache.RepeatedCallHits | pkg/kube/objects.go:68-75 | a fetched answer is given again to references with the same UID without asking, while it is young enough |
| MetadataCache.CountersAddUp | pkg/kube/objects.go:69-122 | mapping hits and mapping reads add up to object reads; cache hits, object reads and failed mappings add up to calls |
| MetadataCache.ObjectMetadataCache.constructor | pkg/kube/objects.go:43-65 | a new cache is empty; the time to live must be positive |
| MetadataCache.ObjectMetadataCache.EvictSome | pkg/kube/objects.go:24-25 | any entries may be gone at any time |
| MetadataCache.ObjectMetadataCache.Resolve | pkg/kube/objects.go:77-111 | the REST mapping from cache or discovery, cached on success, with its counters |
| MetadataCache.ObjectMetadataCache.GetObjectMetadata | pkg/kube/objects.go:67-136 | answer, both caches and all counters follow the specification; each exported counter counts what its name says |
| Intake.SaturationHarmless | pkg/kube/watcher.go:103-104 | the saturation of time.Since never changes the age test |
| Intake.MaxAgeWraps | pkg/kube/watcher.go:56 | the limit is the configured seconds in nanoseconds modulo 2 to the 64th |
| Intake.DecidingField | pkg/kube/watcher.go:93-106 | the time of the series decides if there is one, else the last timestamp if set, else the event time |
| Intake.TimelessIsDiscarded | pkg/kube/watcher.go:93-117 | an event without any time is always discarded |
| Intake.AgeTestExactIff | pkg/kube/watcher.go:56 | the age test compares with the configured seconds, for all events, if and only if their nanoseconds fit 64 bits |
| Intake.IntakeConserves | pkg/kube/watcher.go:78-165 | adds and updates are processed, discarded if their deciding time is after the start, or silently discarded; the handler is called once for each event that is young enough by its deciding field and no other, in order, with the event otherwise unchanged, about the same object, and enriched as the lookup says |
| Intake.HandledAreYoung | pkg/kube/watcher.go:78-161 | what the handler got are the additions and updates whose deciding field is within the limit by true elapsed time, enhanced, in order |
| Intake.EventWatcher.constructor | pkg/kube/watcher.go:50-60 | a new watcher has counted and handled nothing |
| Intake.EventWatcher.IsEventDiscarded | pkg/kube/watcher.go:93-118 | the first of series, last and event time that is set decides; only events newer than the start are counted as discarded |
| Intake.EventWatcher.OnEvent | pkg/kube/watcher.go:120-161 | counters, handler call and metadata cache follow the specification; discarded events and omitted lookups leave the cache alone |
| Intake.EventWatcher.OnDelete | pkg/kube/watcher.go:163-165 | deletions change nothing |
| BigQueryRows.BigQueryDropNils | pkg/sinks/bigquery.go:21-33 | in any iteration order the result is the map without nils at every depth |
| BigQueryRows.DropNilsPaths | pkg/sinks/bigquery.go:21-33 | only nils held by maps go away; every other path stays with the same value, or with an object where there was one, even an empty one |
| BigQueryRows.BigQuerySanitizeKey | pkg/sinks/bigquery.go:36-49 | an underscore in front if the first byte is not a letter, and one for every rune that is neither letter nor digit |
| BigQueryRows.SanitizedKeyAt | pkg/sinks/bigquery.go:36-49 | letters and digits stay in place, every other character becomes an underscore, and the key grows by one underscore exactly if its first byte is not a letter |
| BigQueryRows.LegalKeyKept | pkg/sinks/bigquery.go:36-49 | a legal key is left as it is |
| BigQueryRows.FirstByteUtf8 | pkg/sinks/bigquery.go:38 | key[0] is the first byte of the UTF-8 encoding of the first character |
| BigQueryRows.SanitizedIdentifierIff | pkg/sinks/bigquery.go:36-49 | the sanitised key is an identifier if and only if the key does not start with a digit whose first byte passes for a letter |
| BigQueryRows.AsciiKeysSafe | pkg/sinks/bigquery.go:36-49 | a key that starts with an ASCII character becomes an identifier |
| BigQueryRows.ArabicDigitKey | pkg/sinks/bigquery.go:38 | a concrete key that does not |
| IterationOrder.OutcomesIff | pkg/sinks/bigquery.go:52-62 | renaming the keys of a map in some iteration order gives exactly those results in which each new key carries the value of a key it stems from |
| BigQueryRows.BigQuerySanitizeKeys | pkg/sinks/bigquery.go:52-62 | in any iteration order the new keys are the sanitised old ones and each carries the sanitised value of a key it stems from |
| BigQueryRows.ProducesIff | pkg/sinks/bigquery.go:52-62 | these are precisely the results of some iteration order for each map at every depth |
| BigQueryRows.CleanRowIff | pkg/sinks/bigquery.go:72-76 | in any iteration order, and even if keys collide, a written row has no nil reachable through maps and only identifiers for keys at every depth, if and only if no remaining key starts with a digit whose first byte passes for a letter |
| BigQueryRows.AsciiRowsClean | pkg/sinks/bigquery.go:72-76 | in particular if all keys start with ASCII characters |
| BigQueryRows.LegalRowKept | pkg/sinks/bigquery.go:52-62 | a row whose keys are all legal is left as it is |
| BigQueryRows.RowUnique | pkg/sinks/bigquery.go:52-62 | without colliding keys there is exactly one result |
| BigQueryRows.RewritesCommute | pkg/sinks/bigquery.go:21-62 | without colliding keys the two rewrites commute |
| BigQueryRows.LeavesKept | pkg/sinks/bigquery.go:21-62 | every non-nil leaf is found again under the sanitised path |
| BigQueryRows.LeavesStem | pkg/sinks/bigquery.go:21-62 | every leaf of the result was there before, under a path that sanitises to its own |
| DeDot.DedotMap | pkg/kube/event.go:35-45 | the result is that of some iteration order |
| DeDot.DeDotKeyAt | pkg/kube/event.go:41 | every dot becomes an underscore and every other character stays |
| DeDot.DeDotEvent | pkg/kube/event.go:23-33 | the four label and annotation maps are de-dotted, everything else is kept; a nil event gives the empty one |
| DeDot.DedotEventIdempotent | pkg/kube/event.go:23-33 | de-dotting an event twice is de-dotting it once, and no dotted key is left |
| DeDot.DedotKeys | pkg/kube/event.go:35-45 | in every order the keys are the de-dotted keys, without dots |
| DeDot.DedotIdempotent | pkg/kube/event.go:35-45 | de-dotting twice is de-dotting once, in any orders |
| DeDot.DedotDeterministicIff | pkg/kube/event.go:40-43 | all orders give the same result if and only if keys that fall together carry the same value |
| Layouts.RendersIff | pkg/sinks/tmpl.go:42-87 | a result of the same shape with texts rendered and other scalars null exists exactly for convertible layouts, and it is the one conversion returns |
| Layouts.FailsIff | pkg/sinks/tmpl.go:42-87 | conversion fails if and only if somewhere in the tree a text does not render or a map has a key that is not a string |
| Layouts.ConvertedAt | pkg/sinks/tmpl.go:29-87 | layout and result have the same places, with texts rendered, other scalars null, and maps and lists with the same keys and lengths |
| Layouts.ConvertTemplate | pkg/sinks/tmpl.go:42-87 | the conversion, independent of iteration order |
| Layouts.ConvertLayoutTemplate | pkg/sinks/tmpl.go:29-40 | the same for a map with string keys |
| Layouts.ConvertAnyMap | pkg/sinks/tmpl.go:51-64 | the same for a map with arbitrary keys |
| Layouts.ConvertList | pkg/sinks/tmpl.go:75-84 | the same for a list |
| Pipeline.EmittedAsExpected | pkg/exporter/engine.go:39-41 | what routing sends to a receiver is each handled event once for every guard of the flattened tree that fires |
| Pipeline.ExecuteOk | pkg/exporter/engine.go:16-41 | after every interleaving of notifications, sends and registry steps, the counters are those of the notifications heard and the sends made and still to be made are those of the handled events |
| Pipeline.EndToEnd | pkg/exporter/engine.go:16-41 | in every run of the exporter a receiver's sink has got part of what the notifications heard owe it, each young one, enhanced, once for every guard of the flattened tree that fires, and all of it, as a multiset, if and only if nothing for it is under way |
| Pipeline.EverythingCanArrive | pkg/exporter/engine.go:16-41 | for every sequence of notifications some run gives every receiver all it is owed |
| Pipeline.CatchAll | pkg/exporter/engine.go:39-41 | after any run, even after Close, any further notifications can be heard and all calls for them made |
| Pipeline.RestMeansAll | pkg/exporter/engine.go:16-41 | whatever the interleaving, when nothing but a new notification or Close can happen any more, every receiver has got exactly what it is owed |
| Pipeline.RestIsReached | pkg/exporter/engine.go:16-41 | without new notifications every run is bounded, so that point is reached |
| Pipeline.ClosedSinkHandsOverAll | pkg/sinks/bigquery.go:227-234 | a closed batching sink has handed exactly what was sent to it to the batch handler, in order |
| Pipeline.ClosedSinkLoadsAllIff | pkg/sinks/bigquery.go:185-234 | BigQuery has loaded part of it, and all of it if and only if every load worked |
| Pipeline.EndToEndBatched | pkg/sinks/bigquery.go:185-234 | what BigQuery has loaded for a closed receiver is all that the notifications owe it if and only if nothing for it was under way and every load worked |

## Left out

- The network sinks, TLS setup and the choice of a sink from the configuration: a sink is something whose Send may fail and that is closed.
- Regular expressions, Go templates, JSON, YAML and Avro encoding, the two-queue cache and the Kubernetes clients: parameters that may fail; a cache may lose any entry.
- Writing and uploading BigQuery files: only whether a load worked, and that the handler reports success either way, is modelled; a file that was written only in part and still loads is not.
- The cluster name that main.go adds to events (main.go:122-130): one assignment.
- Leader election, logging, Prometheus registration, profiling, flags, default values and scalar validation of the configuration: single-branch facts.
- Templates that render differently each time, such as those using the clock or random functions of sprig (pkg/sinks/tmpl.go:14): a template is a function of its text.
- Error texts, and which of several errors is reported: a failure is a failure.
- Real time: the ticker and the goroutine scheduler are arbitrary schedules; nothing says how soon something happens.
- Channel registry: its maps, channels and wait group are the state of a transition system, not fields of a class, because its goroutines share them. The sink's Close and the end of its goroutine are one step.
- A batch handler that returns too few or too many answers, and a negative batch size: the original relies on neither happening. With batch size zero the first submission panics, which is a precondition of `Receive`.
- An empty key of a BigQuery row and a receiver unknown to the synchronous registry: the original panics; the first is a precondition, the second is reported as a panic.
- Rules.Rule: its nine pattern fields are one map from field to slot; each is still compiled by its own call, in the order of the original.
- Routes.PreCompileRoute: rules are shared objects here, values inside slices in the original; nothing in the statements depends on whether two positions hold the same rule.
