# Blueboat in Dafny

Blueboat runs JavaScript applications in V8 and gives them a key-value store, message queues with
server-sent events, a module loader and a router. This project models the parts of it that are
algorithms or protocols, and proves what they promise for every input, every run and every
interleaving:

- **Keys.** How paths, versionstamped rows and queue entries become FoundationDB keys. The tuple
  encoding is not prefix-free, so that ranges hold what they should is a matter of proof
  (`tuple.dfy`, `user_keys.dfy`, `stamped_rows.dfy`, `mq_keys.dfy`).
- **Key-value store.** Multi-key compare-and-set with its retry loop, serializability of all
  concurrent runs, the append-only rows, and prefix listing with cursors over a changing store
  (`compare_and_set.dfy`, `kv_runs.dfy`, `prefix_list.dfy`, `listing_runs.dfy`).
- **Message queue and subscribers.** Push, pop and flush, what the store holds after any pushes, and
  exactly-once, gap-free delivery to a subscriber that reconnects (`mq.dfy`, `mq_pop.dfy`,
  `message_queue.dfy`, `sse_runs.dfy`, `sse_starts.dfy`, `sse_task.dfy`, `sse_loop.dfy`,
  `sse_catch_up.dfy`); event-stream frames against section 9.2.6 of
  the WHATWG HTML Standard (`sse_format.dfy`).
- **Packages and modules.** The file tree against a flat map, trimming and collecting, path
  resolution, the loader's worklist over any import graph and the order it visits in, and the later
  lookups (`vfs.dfy`, `resolve.dfy`, `module_names.dfy`, `import_graph.dfy`, `loader.dfy`,
  `callbacks.dfy`, `callback_examples.dfy`).
- **Request lifetime.** Spawn tokens, completion and kill (`executor.dfy`), the abort fence
  (`abort_fence.dfy`), and the reliable channel (`reliable_channel.dfy`).
- **Router.** The route trie, lookup with wildcards and directories, and the middleware chain
  (`route_trie.dfy`, `route_lookup.dfy`, `router.dfy`, `routes.dfy`, `app_entry.dfy`).

`bytes.dfy`, `utf8.dfy`, `paths.dfy` and `sequences.dfy` hold the order of byte strings, well-formed
UTF-8, splitting and joining, and reversal. `fdb.dfy` is the database: a byte-ordered map; transactions that read one
snapshot and their own writes; a writing commit that succeeds if and only if no key it read has been
written since; strictly increasing, non-zero ten-byte stamps; the two versionstamp mutations; and a
`get_range` that returns some beginning of the range, not empty when a row matches.

A Rust `str` of keys and messages is modelled as its UTF-8 bytes; paths of packages and routes are
strings of characters. An object the code updates in place is a class here, each of whose methods is
tied to a function on values, and the theorems are about those functions. Protocols are state
machines whose atomic steps may come in any order.

## Where the code does less than it seems to

- The loader forgets the name under which it first meets a file when that name is not the file's own
  path (src/package.rs:241), and the callback later resolves an import against an arbitrary name of
  the importing module (src/package.rs:260). `Callbacks.LookupSucceedsIff` gives, for each such name,
  the exact condition for finding the file, in terms of the import graph alone;
  `ModuleNames.ResolvesAlikeIff` says when another name leads elsewhere. Packages that load and whose
  callbacks panic: one import without its extension (`CallbackExamples.PairFails`), the same beside an
  import in full but in the wrong order (`CallbackExamples.PairOrderMatters`), and a directory known by
  two names (`CallbackExamples.NestedFails`).
- Listing strips the raw prefix string, so it finds everything exactly when the prefix is canonical
  (`PrefixList.KeepsAllIffCanonical`).
- Listing reads versionstamped rows and drops them from the page, so a page of rows alone comes back
  empty and ends a scan. A scan may miss a path exactly when such a row comes before it
  (`PrefixList.MissedIff`, `ListingRuns.RowHidesPath`).
- `SseMessage::encode` refuses a line feed but not a carriage return; a message arrives as sent
  exactly when it has none (`SseFormat.SurvivesIffNoCr`, `SseFormat.CrIsLost`).
- A message with a line feed is stored but cannot be encoded, and blocks its topic: no subscriber, however
  often it comes back, gets that message or a later one (`SseCatchUp.Blocked`, `SseCatchUp.CatchesUpIff`).
- A lookup of a path with a trailing slash collects its directory's middleware twice
  (`RouteLookup.CollectedOnce`, `AppEntry.SlashRunsTwice`).
- A registration leaves nodes behind on its way, even when it throws, and such a node hides the
  wildcard beside it (`Routes.WildcardReachedIff`, `Routes.WildcardHidden`).
- When a flush of hot topics fails for good, the chunks not yet flushed are forgotten: the flush keeps
  exactly the topics of the chunks that committed before (`MessageQueues.MessageQueue.FlushHotTopics`,
  `MessageQueues.TopicForgotten`).

## Model

| member | source | states |
|---|---|---|
| Tuple.UnpackOfPack | src/mds/mod.rs:33-41 | reading a packed list of valid strings gives the list back |
| Tuple.PackOfUnpack | src/mds/mod.rs:38-39 | whatever bytes unpack are the packing of what they unpack to, so no other bytes read as it |
| Tuple.PackInjective | src/mds/mod.rs:25-31 | two segment lists with one key are the same list |
| Tuple.PackOrder | src/mds/mod.rs:25-31 | packing embeds the lexicographic order of segment lists into that of byte strings, NUL bytes included |
| Tuple.PackPrefix | src/api/kv/mod.rs:281-286 | one packed list begins another, up to a byte other than 0xff, exactly when the lists do; the key of "a\0b" does not count as under "a" |
| Tuple.PlainString | src/mds/mod.rs:25-31 | a string without NUL is packed as the type code 2, its bytes, NUL |
| Tuple.StringWithNul | src/mds/mod.rs:25-31 | a NUL in it is packed as 0x00 0xff |
| UserKeys.SegmentsMean | src/mds/mod.rs:25-31 | slashes separate the segments of a path, and empty ones do not count |
| UserKeys.UnpackOfPackUserKey | src/mds/mod.rs:25-41 | unpacking a packed path gives its non-empty segments joined by slashes, for every valid path and prefix |
| UserKeys.UnpackedRepacks | src/mds/mod.rs:25-41 | that result is canonical and packs to the same key |
| UserKeys.KeysOrderedAsPaths | src/mds/mod.rs:25-31 | keys of a namespace sort as the segment lists, and two paths share a key exactly when they differ in empty segments only |
| UserKeys.KeysApart | src/mds/mod.rs:25-31 | paths of two namespaces share a key exactly when the clusters are the same and prefix and path together have the same segments |
| UserKeys.NamespacesApart | src/mds/mod.rs:25-31 | so namespaces neither of whose prefixes begins the other share no key |
| UserKeys.UnpacksOnlyOwn | src/mds/mod.rs:33-41 | a key unpacks below a namespace only if it was packed below that cluster and prefix |
| UserKeys.SeesOnlyOwn | src/mds/mod.rs:33-41 | a path of another namespace is seen through a namespace only where it lies below it |
| Fdb.TemplateFilled | src/api/kv/mod.rs:167-173 | a template whose last four bytes hold its head's length becomes head and stamp at commit |
| StampedRows.TemplateYieldsRow | src/api/kv/mod.rs:166-178 | the template built for a base key commits as base key, the byte 0x32, stamp |
| StampedRows.RowIsNoPathKey | src/api/kv/mod.rs:166-178 | no path key or base key of any namespace equals a row |
| StampedRows.RowsDistinctAndOrdered | src/api/kv/mod.rs:166-178 | a row determines its base key and stamp, and rows of a base key sort as their stamps |
| StampedRows.RowAmongPathKeys | src/api/kv/mod.rs:166-178 | the rows of a path sort after every path below it and before every path after it |
| StampedRows.RowDoesNotUnpack | src/mds/mod.rs:32-41 | a row never unpacks as a path, so listings drop it |
| CompareAndSet.RunKey | src/api/kv/mod.rs:134-181 | one key of a request: what it reads, that it goes on exactly if the value read is what its check asks for, what it writes |
| CompareAndSet.RunKeys | src/api/kv/mod.rs:133-182 | the loop over the keys is one attempt on the snapshot, with own earlier sets visible |
| CompareAndSet.Handle | src/api/kv/mod.rs:120-211 | the retry loop answers at the first attempt that is refused or commits, after conflicts only, gives a versionstamp exactly when it appended, and is not ok exactly when a check fails on the snapshot of its last try, and on none before |
| CompareAndSet.OneCheck | src/api/kv/mod.rs:139-156 | a request of one key goes through exactly if nothing is asked of the key, or it is absent as asked, or it holds the value asked for, whatever the change |
| CompareAndSet.SeriallyStep | src/api/kv/mod.rs:134-182 | each key's check looks at what the keys before it have left, and its set, delete or append is made to that |
| CompareAndSet.SeriallyChecks | src/api/kv/mod.rs:134-182 | a request goes through exactly when no check fails |
| CompareAndSet.RefusalMeans | src/api/kv/mod.rs:139-156 | a try is refused exactly when a check fails on its snapshot, earlier keys of the request taken into account |
| CompareAndSet.AttemptIsSerial | src/api/kv/mod.rs:134-182 | if no key read has changed, an attempt inside a transaction equals running the checks and sets one after the other on the current state |
| CompareAndSet.ReadSeesApplied | src/api/kv/mod.rs:135-157 | reading through own sets and clears sees what applying them at commit leaves |
| KvRuns.StepKeepsInv | src/api/kv/mod.rs:120-211 | every step keeps that each answer is explained by one version between its call and its answer, and each commit by one request |
| KvRuns.RunsAreSerializable | src/api/kv/mod.rs:120-211 | in every interleaving the answered requests have a serial order, a permutation of them all, that gives every one its answer and ends in the same store |
| KvRuns.RefusedAnswerMeans | src/api/kv/mod.rs:139-156 | in every run an answer is not ok exactly if a check of it fails on the version it took effect at |
| KvRuns.UndisturbedAnswers | src/api/kv/mod.rs:189-210 | a handler that starts over and is not disturbed before its next try ends gives its answer |
| KvRuns.Unconflicted | src/api/kv/mod.rs:189-210 | keys read and not written since have the values they had |
| KvRuns.RowsUntouched | src/api/kv/mod.rs:158-181 | no request clears or overwrites a row of an earlier commit |
| KvRuns.RowsAreStamped | src/api/kv/mod.rs:166-180 | a row in a store carries the stamp of an earlier commit |
| KvRuns.LogIsAppendOnly | src/api/kv/mod.rs:158-181 | over any run a row, once there, keeps its value for ever |
| PrefixList.SetUpRange | src/api/kv/mod.rs:281-297 | the byte range holds exactly the keys whose segments extend the prefix's and lie strictly beyond the cursor, in either direction |
| PrefixList.RangeIsWanted | src/api/kv/mod.rs:281-297 | the same, for each key, of the range as a function of the request |
| PrefixList.RelativeRepacks | src/api/kv/mod.rs:304-318 | under a canonical prefix a key is reported by its remaining segments, and appending them to the prefix packs to the same key |
| PrefixList.KeepsAllIffCanonical | src/api/kv/mod.rs:311-315 | stripping the raw prefix keeps every key under it exactly when the prefix is canonical |
| PrefixList.PageIsComplete | src/api/kv/mod.rs:303-319 | a page reports exactly its path keys, in order, each with its value; only other rows are dropped |
| PrefixList.PageWithinLimit | src/api/kv/mod.rs:302 | a page holds no more paths than asked for |
| PrefixList.PageStaysOwn | src/api/kv/mod.rs:303-319 | a page reports no path of another namespace, unless that path lies below the listed namespace's own prefix |
| PrefixList.ScanAscends | src/api/kv/mod.rs:288-319 | paging with the last path as cursor reports strictly ordered keys across pages, while the store changes, rows or not |
| PrefixList.ScanRepeatsNothing | src/api/kv/mod.rs:281-319 | no path is reported twice |
| PrefixList.ScanMissesNothing | src/api/kv/mod.rs:281-319 | every path that all the pages' stores hold, with no dropped row before it, is reported |
| PrefixList.HiddenIsMissed | src/api/kv/mod.rs:300-319 | where a dropped row comes before a path, the scan that reads row by row does not report the path |
| PrefixList.MissedIff | src/api/kv/mod.rs:281-319 | a scan of an unchanging store may miss a stored path exactly when a dropped row under the prefix comes before it |
| ListingRuns.VersionsAreListable | src/api/kv/mod.rs:133-182 | whatever unpacks below a namespace, in any version of any run, is the key of a proper path |
| ListingRuns.ScanOfRun | src/api/kv/mod.rs:120-319 | a scan read while compare-and-set requests run reports no path twice, and every path that all the versions it reads hold with no row before it |
| ListingRuns.RowHidesPath | src/api/kv/mod.rs:303-319 | after a row is appended under "a" and "b" is set, a listing of everything may end without "b" |
| MqKeys.CopyInto | src/pubsub/mq.rs:122-129 | writing into part of a key buffer changes that part and no other |
| MqKeys.MessageQueueTopic.constructor | src/pubsub/mq.rs:111-142 | building the key templates in place gives the topic's counter key and data key template, byte by byte |
| MqKeys.MessageQueueTopic.RangeAfter | src/pubsub/mq.rs:245-256 | the range patched together in place holds exactly the topic's messages stamped after the cursor: no other topic or namespace, no counter, no hot key |
| MqKeys.TemplateYieldsDataKey | src/pubsub/mq.rs:116-129 | the template commits as the data key of the stamp |
| MqKeys.SameTopic | src/pubsub/mq.rs:111-135 | a topic's prefix and a byte other than 0xff begin a key of that topic only, even where one packed name is a prefix of another |
| MqKeys.KeysDistinct | src/pubsub/mq.rs:83-142 | data, counter and hot keys of all topics are pairwise distinct |
| MqKeys.HotKeysDistinct | src/pubsub/mq.rs:83-88 | different topics have different hot keys |
| MqKeys.RangeIsExact | src/pubsub/mq.rs:245-256 | the exact content of the range, for the four trailing bytes the code leaves behind |
| Mq.PushEffect | src/pubsub/mq.rs:154-170 | a push stores the message under its stamp and the stamp as the counter |
| Mq.StoreRepresentsRows | src/pubsub/mq.rs:154-187 | in every reachable store the counter is absent if the topic is empty and else its greatest stamp, and the data keys hold exactly the messages |
| Mq.OnlyQueueKeys | src/pubsub/mq.rs:83-187 | nothing else is ever stored |
| Mq.RowsAscend | src/pubsub/mq.rs:154-187 | a topic's messages have non-zero, strictly increasing stamps |
| Mq.RangeHoldsAfter | src/pubsub/mq.rs:245-259 | what is stored in a pop's range is exactly the topic's messages after the cursor |
| Mq.BatchIsNext | src/pubsub/mq.rs:256-263 | one range read returns the first messages after the cursor, and some unless there are none |
| MqPop.ReadRows | src/pubsub/mq.rs:261-273 | turning rows into messages fails exactly on an empty batch or a key of the wrong length |
| MqPop.Pop | src/pubsub/mq.rs:200-274 | the watch loop: it reads at the first transaction whose counter is past the cursor, gives up at once when not waiting, and bails out as the code does |
| MqPop.CounterTells | src/pubsub/mq.rs:208-222 | for a cursor of the queue no check of the counter bails out, and the counter has advanced exactly when a message waits |
| MqPop.ReadsNext | src/pubsub/mq.rs:256-273 | neither check of the range read can fail, and it gives the next messages |
| MqPop.PopDelivers | src/pubsub/mq.rs:200-274 | for such a cursor a pop never fails; it gives the next messages, at least one if it waits, and goes on waiting only while there are none |
| MessageQueues.MessageQueue.Push | src/pubsub/mq.rs:154-187 | however many tries fail, a push stores one message and marks the topic hot, or changes nothing |
| MessageQueues.MessageQueue.Seq | src/pubsub/mq.rs:189-198 | a new subscriber's cursor stands right after the last message, and is the first cursor of the run model |
| MessageQueues.MessageQueue.AddFlush | src/pubsub/mq.rs:81-90 | a try sets the hot key of each topic of its chunk, byte by byte, to "1", and nothing else |
| MessageQueues.MessageQueue.FlushBatch | src/pubsub/mq.rs:79-99 | however often a chunk conflicts, it commits once, adding exactly its topics' hot keys, or fails for good and changes nothing |
| MessageQueues.MessageQueue.FlushHotTopics | src/pubsub/mq.rs:73-102 | it succeeds exactly if the chunks that commit before the first failure hold all hot topics; those chunks' topics, and no others, gain hot keys, and no topic is hot after either |
| MessageQueues.FlushCommitted | src/pubsub/mq.rs:79-99 | a committed chunk sets the hot keys of its topics to "1" and adds no other |
| MessageQueues.TopicForgotten | src/pubsub/mq.rs:73-102 | one message and one failed flush: the message is stored, its topic is not hot and has no hot key |
| MessageQueues.TakeChunk | src/pubsub/mq.rs:79-80 | chunks take distinct topics and are full except the last |
| SseRuns.StepKeepsInv | src/pubsub/sse.rs:134-190 | each step keeps that cursor, watch, batch, frames on the way and client stand at consecutive places of the topic |
| SseRuns.DeliversInOrder | src/pubsub/sse.rs:83-190 | in every interleaving of pushes, wakeups, heartbeats, disconnects, early ends and reconnects a subscriber has got a beginning of the messages after its start: in order, no gap, no repeat |
| SseStarts.ConnectStarts | src/pubsub/sse.rs:83-90 | in every run a connection opens at the id the client sends, or right after all messages of the topic |
| SseStarts.GetsWhatFollows | src/pubsub/sse.rs:83-190 | what a client gets on its first connection was all published after it connected: a beginning of that, in order, no gap, no repeat |
| SseRuns.NeverFailsNorMissesWakeup | src/pubsub/mq.rs:206-272 | no pop bails out in any run, and a pop blocked on its watch while a message waits has a watch that has fired |
| SseRuns.PollKeeps | src/pubsub/mq.rs:206-243 | one look at the counter keeps the invariant, and goes to the range only when its snapshot has a message |
| SseRuns.ReadingKeeps | src/pubsub/mq.rs:256-273 | a range read in the snapshot that saw the counter keeps the invariant, at whatever later time it happens |
| SseRuns.SeenIsNext | src/pubsub/mq.rs:256-273 | what a range read of an older snapshot returns is still the next part of the topic |
| SseTasks.SentOfAll | src/pubsub/sse.rs:170-181 | a batch goes out whole exactly when every message can be encoded and the client stays |
| SseTasks.SendAllMeans | src/pubsub/sse.rs:170-189 | the messages up to the first that cannot be encoded or sent go out, in order; the loop goes on exactly after a waiting subscriber's non-empty batch that went out whole, with its last stamp as the cursor |
| SseTasks.HeartbeatGoesOn | src/pubsub/sse.rs:153-158 | a heartbeat leaves the loop running with its cursor and adds no message; only a client that is gone ends it |
| SseTasks.SseTask.SendData | src/pubsub/sse.rs:193-203 | a frame goes out exactly while the client takes frames |
| SseTasks.SseTask.SendMessage | src/pubsub/sse.rs:205-219 | a message goes out exactly when it can be encoded and its client is there |
| SseTasks.SseTask.SendBatch | src/pubsub/sse.rs:170-189 | the sending loop, with its four ways out, is all the sending steps of the batch |
| SseTasks.SseTask.Run | src/pubsub/sse.rs:134-191 | the whole loop over any outcomes of its `select!` is the rounds that the next rows speak of |
| SseLoop.PopSteps | src/pubsub/mq.rs:200-274 | a pop whose transactions read the store while publishers go on is a list of the run model's steps |
| SseLoop.RoundsSteps | src/pubsub/sse.rs:144-191 | any rounds with such pops are a list of the run model's steps |
| SseLoop.LoopSteps | src/pubsub/sse.rs:134-191 | so is the loop from its first frame on |
| SseLoop.LoopDelivers | src/pubsub/sse.rs:134-191 | started in any reachable state, the loop never ends in a failed pop and has sent a beginning of the messages after its cursor: in order, no gap, no repeat |
| SseCatchUp.OneMessageArrives | src/pubsub/sse.rs:144-191 | a waiting subscriber at rest can get the next message, if it can be encoded, and then is at rest after it |
| SseCatchUp.CatchesUp | src/pubsub/sse.rs:83-191 | from every reachable state a subscriber can get all messages after its last, in order, if they can be encoded |
| SseCatchUp.Blocked | src/pubsub/sse.rs:205-238 | a message that cannot be encoded is never got, nor is any after it, in any run |
| SseCatchUp.CatchesUpIff | src/pubsub/sse.rs:83-238 | a subscriber can get all messages there are exactly if each can be encoded |
| SseFormat.Encode | src/pubsub/sse.rs:229-238 | accepts exactly UTF-8 without a line feed, and writes three fields and an empty line |
| SseFormat.FrameRead | src/pubsub/sse.rs:229-238 | a frame, whatever follows, parses to its event, data and id and leaves empty buffers |
| SseFormat.HeartbeatRead | src/pubsub/sse.rs:193-203 | a heartbeat contributes nothing |
| SseFormat.StreamRead | src/pubsub/sse.rs:193-239 | any stream of frames and heartbeats parses to exactly the messages sent |
| SseFormat.ReadDataHasNoCr | src/pubsub/sse.rs:231-235 | no message parsed from any bytes has a carriage return in its data |
| SseFormat.SurvivesIffNoCr | src/pubsub/sse.rs:229-238 | an accepted message arrives as sent exactly when it has no carriage return |
| SseFormat.CrIsLost | src/pubsub/sse.rs:231-235 | a concrete accepted message that does not |
| Vfs.InsertMeans | src/package.rs:54-74 | insertion panics exactly on a path through a file; otherwise it adds one file if the path was free, and changes no other |
| Vfs.InsertRefinesFlat | src/package.rs:54-74 | on a loaded tree insertion is insertion into a flat map that ignores paths taken by a file or a directory |
| Vfs.TakenMeans | src/package.rs:63-69 | a path is taken exactly when it is a file or leads to one |
| Vfs.InsertKeepsNames | src/package.rs:54-74 | insertion keeps every name in the tree a non-empty segment without a slash |
| Vfs.Load | src/package.rs:99-112 | a loaded package is the flat map of its entries in order, less one common prefix, and all its names are segments; it panics exactly when that map has none |
| Vfs.Trim | src/package.rs:76-95 | trimming steps off a common prefix of all files, loses none, and stops only where it must |
| Vfs.Resolve | src/package.rs:144-156 | the walk finds the file at the split path |
| Vfs.CollectAll | src/package.rs:128-142 | every file below, each once, with its path |
| Vfs.Pack | src/package.rs:118-142 | of a tree whose names are segments, as a loaded one is, the pairs emitted are exactly the canonical paths and what they resolve to, each once |
| Resolve.TransformRelPath | src/package.rs:158-173 | the loop over the target's segments equals a walk from the file's directory |
| Resolve.WalkAlong | src/package.rs:164-170 | the loop over the segments pops on ".." and pushes otherwise, as the walk does |
| Resolve.WalkConcat | src/package.rs:164-170 | walking two parts in turn is walking both |
| Resolve.WalkDown | src/package.rs:164-170 | without ".." a walk appends |
| Resolve.WalkUp | src/package.rs:164-168 | any number of ".." stops at the root |
| Resolve.SplitPathMeans | src/package.rs:114-116 | slashes separate the segments of a path; "" and "." do not count |
| Resolve.TransformMeans | src/package.rs:158-173 | a file imports from its own directory, and a leading ".." goes one up from there |
| Resolve.TransformStaysInside | src/package.rs:158-173 | every result is canonical, and free of ".." if the importing file's path is |
| Resolve.NormalizePath | src/package.rs:208-216 | the loop over suffixes finds the first that names a file |
| Resolve.NormalizeLands | src/package.rs:208-216 | a normal form is a file, canonical, and its own normal form |
| Resolve.NormalizeFails | src/package.rs:208-216 | normalising panics exactly when no suffix names a file |
| Resolve.NormalizeMeans | src/package.rs:208-216 | which file wins: the name itself, then .mjs, .js, /index.mjs, /index.js |
| Resolve.NormalizeStaysInside | src/package.rs:208-216 | no suffix introduces a ".." |
| ModuleNames.NamePlaces | src/package.rs:208-216 | a name and the file it stands for lie in one directory, or the name is the file's directory |
| ModuleNames.ExtensionStaysInDirectory | src/package.rs:158-163 | a name with an extension added lies in the same directory |
| ModuleNames.DirectoryResolvesAlikeIff | src/package.rs:158-173 | from a directory's name and from a file in it an import leads to one place exactly when it climbs to the root |
| ModuleNames.ResolvesAlikeIff | src/package.rs:158-173 | from any name of a file an import leads where it leads from the file's path exactly when the name only lacks an extension or the import climbs to the root |
| ImportGraph.AliasStep | src/package.rs:236-239 | a visit of a compiled file keeps the worklist's invariant |
| ImportGraph.CompileStep | src/package.rs:241-254 | compiling a file keeps it: what is compiled is reachable, once, and every import is visited once or still waiting |
| ImportGraph.AliasOnCourse | src/package.rs:225-239 | a visit of a compiled file follows the last-in-first-out order |
| ImportGraph.CompileOnCourse | src/package.rs:225-254 | and so does a compilation, whose last import is visited next |
| ImportGraph.WorklistEmpty | src/package.rs:225-255 | when the worklist is empty what is compiled is exactly what is reachable |
| Loader.LoadFrom | src/package.rs:225-255 | over any graph, cyclic or not, the worklist ends; it loads exactly if every reachable file compiles and all its imports resolve, visits paths in the order that the graph determines, and otherwise is refused or panics as the first failing visit has it |
| Loader.Load | src/package.rs:218-255 | the same for a package, with the files compiled, each once, and the exact names they are known by, as a function of the package |
| Callbacks.LookupSucceedsIff | src/package.rs:257-313 | from any name the inverted map may keep, the lookup of an import finds its file exactly when the path from that name leads to the file and is the file's own or comes up again in the order of visits |
| Callbacks.OwnPathLookup | src/package.rs:281-313 | from the module's own path a callback finds the file or panics, never another file, and exactly when |
| Callbacks.TwiceIsEnough | src/package.rs:236-239 | a name that two imports lead to is always known |
| Callbacks.AlikeLookups | src/package.rs:257-297 | callbacks agree under a name that only lacks an extension, and for imports that climb to the root |
| Callbacks.OneName | src/package.rs:259-268 | if every import is its own normal form, each module has one name, so inverting the map is unambiguous |
| Callbacks.CallbacksSucceed | src/package.rs:281-313 | then every callback finds the file its import names |
| Callbacks.AliasIsNeverAFile | src/package.rs:232-239 | a name that stands for another file is no file's path |
| Callbacks.LoneAliasFails | src/package.rs:241-246 | one way to fail: an import by another name, when nothing else leads to the file |
| CallbackExamples.LoneFails | src/package.rs:225-313 | any graph with one import, by an alias: it loads and the callback panics |
| CallbackExamples.ImportOrderMatters | src/package.rs:225-254 | a file imported by an alias and by its own path: the alias is found exactly if it is written first |
| CallbackExamples.CrossedFails | src/package.rs:257-297 | a directory known by its name and its index file: the load succeeds, both names are kept, and the callback works under one and panics under the other |
| CallbackExamples.TinyLacks | src/package.rs:208-216 | "./a" in index.js beside a.js is a name that only lacks its extension |
| CallbackExamples.PairFails | src/package.rs:225-313 | index.js importing such a name: the package loads and the callback panics |
| CallbackExamples.PairOrderMatters | src/package.rs:225-313 | with the full name imported too, the short one is found if it is written first, and panics if last |
| CallbackExamples.NestedFails | src/package.rs:225-313 | "./d" and "./d/index.js" imported, and "./f.js" by the latter: it loads, and the callback for "./f.js" panics if the map keeps the name "d" |
| CallbackExamples.SmallestApart | src/package.rs:208-216 | index.js, d and f.js are such names |
| Executors.Executor.Spawn | src/exec.rs:146-166 | a task starts exactly while the executor and a token live, and then holds a token |
| Executors.Executor.Complete | src/exec.rs:172-177 | completing sets the value and releases the guard while the executor lives, and else does nothing |
| Executors.Executor.PollCompletion | src/exec.rs:138-144 | a completion wins over the absence of tokens, and its value is taken |
| Executors.Executor.constructor | src/exec.rs:103-136 | a new executor has one holder, a kill guard and a completion guard, no result, and one token |
| Executors.Executor.Drop | src/exec.rs:27-31 | a holder lets go, and the last one releases the kill guard |
| Executors.StepKeeps | src/exec.rs:103-177 | tokens are counted by live tasks and the handler, the result is the last completion, and the kill guard is released exactly when no holder is left |
| Executors.WaitMeans | src/exec.rs:138-144 | in every reachable state waiting gives the last completed value if any, none if also no token lives, and goes on otherwise |
| Executors.QuietForever | src/exec.rs:146-177 | no token and no completion is absorbing: no later spawn, completion or body step in any run |
| Executors.NothingRunsAfterDrop | src/exec.rs:158-165 | once the executor is dropped no task body takes another step; each poll ends a task |
| Executors.AnswerMeans | src/ipc.rs:92-113 | the handler's answer is the last completed value, and a completion error only when nothing was left |
| Executors.EndMeans | src/ipc.rs:92-113 | a run ends in an entry error, a panic or a cancellation exactly if that happened |
| Executors.ActsTakeEffect | src/exec.rs:146-177 | until the executor is dropped, the entry call and every live task can spawn and complete |
| Executors.HandleWithCancellation | src/ipc.rs:78-114 | creating, entering, which may fail or panic without a result, giving up the token, waiting and dropping, under any schedule of tasks, equals the run model |
| AbortFence.StepKeeps | src/exec.rs:196-236 | lock, fence, report and termination agree in every step, and nothing is terminated once the fence is set |
| AbortFence.NoTerminationAfterFence | src/exec.rs:202-228 | in no interleaving does a termination follow the setting of the fence |
| AbortFence.LockBeforeFenceTerminates | src/exec.rs:205-218 | a watcher that locks before the fence is set has terminated the isolate by the time it unlocks |
| AbortFence.RunawayIsTerminated | src/exec.rs:199-218 | while the application runs the watcher alone gets to terminating it |
| AbortFence.WaitingWatcherStops | src/exec.rs:222-228 | once the caller has aborted it, a watcher that still waits may stop |
| AbortFence.EnterSeesTermination | src/exec.rs:222-248 | `enter` resets the context exactly if the isolate was terminated, gives a result exactly if it was not and nothing was thrown, and nothing changes that later |
| AbortFence.NeverStuck | src/exec.rs:222-228 | `enter` can always go on, or whoever holds the lock can |
| ReliableChannels.StepKeeps | src/reliable_channel.rs:43-165 | every step keeps ids, callbacks, requests, handlers, replies and results matched |
| ReliableChannels.DeliverFinds | src/reliable_channel.rs:43-52 | the next reply finds the callback of the call that issued its id |
| ReliableChannels.RepliesReachTheirCalls | src/reliable_channel.rs:43-165 | in every run no reply misses its callback, each result belongs to its call's id and body, live ids are distinct, permits and handlers make eight, and a sent call is lost only if its handler panics |
| ReliableChannels.ResultsAreTheHandlers | src/reliable_channel.rs:146-158 | in every run a call's result, and every reply on its way, is the value its own handler returned, and a handler returns once |
| ReliableChannels.CancelledHearsNothing | src/reliable_channel.rs:43-82 | a call cancelled before it has a result never gets one |
| ReliableChannels.NeverStalls | src/reliable_channel.rs:116-159 | while a sent call has no answer, one of the loops or a handler can go on |
| ReliableChannels.RunPlaces | src/reliable_channel.rs:116-159 | every unanswered call is in one place on its way, or its handler has panicked |
| ReliableChannels.RunLoses | src/reliable_channel.rs:132-159 | a call is lost only in a step in which its own handler panics |
| ReliableChannels.CrashKeeps | src/reliable_channel.rs:132-159 | a handler that panics gives its permit back and leaves every other call matched |
| ReliableChannels.RunSettles | src/reliable_channel.rs:72-82 | a call's id and body never change, and its result stays |
| ReliableChannels.ReliableChannel.PrepareCall | src/reliable_channel.rs:58-70 | a call takes a fresh id, registers its callback and sends its request |
| ReliableChannels.ReliableChannel.TakeCallback | src/reliable_channel.rs:45-50 | takes the callback of an id out of the map, and no other |
| ReliableChannels.ReliableChannel.Deliver | src/reliable_channel.rs:43-52 | delivering a reply never panics and wakes the call that issued its id |
| RouteTrie.CreateMeans | jsland/src/router.ts:67-88 | a registration changes its own node, if its path is accepted, and no other |
| RouteTrie.CreateReaches | jsland/src/router.ts:74-86 | which nodes a registration leaves behind, throwing or not |
| RouteTrie.TrieHolds | jsland/src/router.ts:131-180 | after any registrations a node holds the last handler of each method and all middleware registered for exactly its path |
| RouteTrie.TrieReaches | jsland/src/router.ts:74-86 | a node exists exactly when some registration went through it |
| RouteLookup.ExactWins | jsland/src/router.ts:97-127 | a path with a node of its own is found there, whatever wildcards and directories exist |
| RouteLookup.WalkCollects | jsland/src/router.ts:102-125 | a lookup ends at a node, and each node it collects has middleware |
| RouteLookup.CollectedGoDown | jsland/src/router.ts:102-125 | the nodes collected lie along the way from the root, never shorter than the one before |
| RouteLookup.CollectedOnce | jsland/src/router.ts:102-125 | each node is collected once, exactly unless a trailing slash asks for a directory with middleware |
| Router.RouterImpl.CreateChild | jsland/src/router.ts:67-88 | a registration is recorded, and reports success exactly for an accepted path |
| Router.RouterImpl.CreateBelow | jsland/src/router.ts:74-87 | walking down creates what is missing and applies the operation at the end; at an empty middle segment it throws and leaves what it created |
| Router.RouterImpl.Get | jsland/src/router.ts:131-135 | registers GET for the path, on record in order |
| Router.RouterImpl.Head | jsland/src/router.ts:136-140 | registers HEAD |
| Router.RouterImpl.Put | jsland/src/router.ts:141-145 | registers PUT |
| Router.RouterImpl.Post | jsland/src/router.ts:146-150 | registers POST |
| Router.RouterImpl.Patch | jsland/src/router.ts:151-155 | registers PATCH |
| Router.RouterImpl.Delete | jsland/src/router.ts:156-160 | registers DELETE |
| Router.RouterImpl.Options | jsland/src/router.ts:161-165 | registers OPTIONS |
| Router.RouterImpl.Use | jsland/src/router.ts:166-170 | adds a middleware for exactly the path |
| Router.RouterImpl.Any | jsland/src/router.ts:171-180 | registers all methods but HEAD |
| Router.RouterImpl.LookupChild | jsland/src/router.ts:90-129 | the loop's result in terms of the trie: error, null, or the end node's handlers and the collected middleware, innermost first |
| Routes.CollectRoutes | jsland/src/router.ts:41-56 | every handler in the trie, each once, under its path |
| Routes.AllRoutes | jsland/src/router.ts:41-56 | the list is exactly the methods and accepted paths with a handler registered, each once |
| Routes.LookupRegistered | jsland/src/router.ts:67-129 | looking up a registered path gives for each method the handler registered last for exactly that path |
| Routes.LookupTouched | jsland/src/router.ts:67-129 | so does every path that some registration went through, even with no handler of its own |
| Routes.AnySetsAllButHead | jsland/src/router.ts:171-180 | after `any` its handler answers every method of the path but HEAD, which stays as it was |
| Routes.WildcardReachedIff | jsland/src/router.ts:108-111 | at any node a segment falls to the wildcard exactly when some registration went through the wildcard there and none, failed ones included, through the segment |
| Routes.WildcardHidden | jsland/src/router.ts:74-111 | a handler for "/*" answers a segment until any longer path through that segment is registered; then no handler is found |
| Routes.ExactCollects | jsland/src/router.ts:102-125 | a registered path collects exactly the middleware of its ancestors and itself and of the directories beside them |
| AppEntry.Fold | jsland/src/index.ts:92-101 | the nested loops build a chain around the handler: outermost the last list, latest registration first |
| AppEntry.Serve | jsland/src/index.ts:86-101 | a request gets an error, nothing, or the picked handler inside the collected middleware, root to leaf, latest first within a node |
| AppEntry.ServesMethod | jsland/src/index.ts:58-69 | a path some registration went through is answered by the handler registered last for exactly it and the method, HEAD falling back on GET |
| AppEntry.ServesRegistered | jsland/src/index.ts:58-92 | a registered path: each method's own handler or none; HEAD's, else GET's, else none |
| AppEntry.EachMiddlewareOnce | jsland/src/router.ts:102-125 | without a trailing slash every collected node counts once |
| AppEntry.CollectedAreRegistered | jsland/src/router.ts:166-170 | what a node contributes is the middleware registered for exactly its path |
| AppEntry.SlashRunsTwice | jsland/src/router.ts:102-124 | a middleware and a handler at "/": the middleware runs twice |

## Left out

- Commits whose outcome is unknown: every commit here succeeds or fails. The retry loops would apply
  a request again after an unknown success.
- Last event ids that do not come from the queue: a client is modelled as sending back the id it
  received last. Ids are the stamps themselves; hex encoding is not modelled.
- SseRuns.DeliversInOrder: that a waiting message is delivered in the end is stated as what can always
  happen next (`SseCatchUp.CatchesUp`), not as what must, since steps have no fairness.
- Keys of 2^32 bytes and more, which the 32-bit offset could not address: FoundationDB holds no such
  keys (`StampedRows.Addressable`).
- Vfs.InsertMeans: the tree is a value; the mutable cursor into nested maps that the code walks with
  is not modelled. Reading the entry's bytes cannot fail here, and archive parsing is left out.
- Vfs.CollectAll: the order in which the hash map yields children is arbitrary.
- Loader.Load: the index path must be free of ".."; its only caller passes the empty string. What V8
  does when it instantiates the modules is not part of this model, and compiling is a function of
  the path.
- Router.RouterImpl.CreateChild: the trie is a value held by the router; that a lookup's middleware
  lists are the live arrays of the nodes is not modelled.
- Routes.CollectRoutes: the insertion order of JavaScript maps and objects is not modelled, nor the
  sorting and printing of the debug page.
- AppEntry.Serve: a middleware may call its inner handler any number of times; the order given is the
  nesting. Request methods are the seven the router knows.
- Executors.HandleWithCancellation: calls into one executor come from its own entry and tasks, as in
  the code; V8, the isolate lock and the current-executor cell are not modelled.
- AbortFence.StepKeeps: atomic operations are sequentially consistent here; the report is written and
  read under the same lock. The grace period is a step that may take any time.
- ReliableChannels.StepKeeps: sending on the IPC channels never fails, and ids do not wrap at 2^64.
- CompareAndSet.Handle: unknown namespaces and shards, and the base64 text of the stamp, are plumbing
  around the loop.
- Wall-clock times: the heartbeat, the flush interval and the grace period are steps that may happen
  at any time.
- V8 bindings, serialisation, HTTP serving, package fetching, timers, graphics, layout, MySQL, APNs and
  external services: plumbing over libraries, or only easy members.
