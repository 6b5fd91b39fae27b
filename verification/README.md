# Verified models of crictl and critest logic

crictl is a command line client for container runtimes; critest validates and benchmarks them. Most of both programs
forwards remote calls. This project models, in Dafny, the parts whose correctness is decided by the program's own code,
and proves what they promise for all inputs, all runs and all interleavings.

| file | what it models |
|---|---|
| `Aggregate.dfy` | `AggregateGoroutines`: n goroutines running arbitrary terminating bodies, a channel with n slots, a collector; every interleaving |
| `Removal.dfy` | the workers of `crictl rm` and `crictl rmp`, as bodies of `Aggregate` |
| `Interrupt.dfy` | `InterruptableRPC` and the one-shot signal handler: any number of concurrent calls, signals and cancellations |
| `ConfigView.dfy`, `ConfigOptions.dfy`, `ConfigLaws.dfy` | what writing and reading options means on the row of key and value nodes, and the laws of both |
| `ConfigFile.dfy` | the heap of YAML nodes and the configuration object that the source updates in place |
| `ConfigSet.dfy` | `crictl config --set` |
| `Strconv.dfy`, `Text.dfy`, `Arithmetic.dfy` | the integer, boolean and string routines of Go that the rest goes through, with their laws |
| `Timestamp.dfy` | `GetTimestamp`, `ParseTimestamps`, and the log command's composition of them |
| `Images.dfy` | the `--filter` chain of `crictl images`, on slices that are reversed in place, and the listing comparator |
| `Rmi.dfy` | the selection of images by `crictl rmi` |
| `Listing.dfy` | the listing of containers and pods: filter, sort, truncate |
| `Benchmark.dfy` | the results manager of the lifecycle benchmarks: senders, consumer, waiter |
| `NriLog.dfy` | the event log of the NRI test plugin: the guarded object with its slices, and the interleavings of its users |
| `Retry.dfy` | `connectWithRetry` |

A concurrent protocol is a state, a set of atomic actions with their guards, and their effect; a run is any sequence of
enabled actions. Code that updates objects, slices or loop variables is a class or a method with the same updates,
proved against a function or relation whose properties are lemmas.

## Findings

- The least 64-bit duration is its own negation, so it is added instead of subtracted. It is the only such duration
  (`Timestamp.DurationIsSubtracted`). The text that stands for it is `-9223372036854775808ns`; that `time.ParseDuration`
  accepts it is not part of this model.
- `GetTimestamp` is documented to return the given value back when nothing parses (pkg/timetype/timestamp.go:41-46). The
  code does so if and only if the value has no dash and is a number of seconds, which counts as parsed; every other such
  value is an error (`Timestamp.GivenBackExactly`), for instance `no-time` (`Timestamp.NotGivenBack`).
- The comparator of `ListImages` is transitive exactly on images that are compared pairwise by the same kind of name
  (`Images.TransitiveExactly`). A list can be sorted if and only if its strict order has no circle
  (`Images.SortableExactly`). Lists whose images all share one kind of name have none (`Images.SortedArrangement`); two
  tagged images and an untagged one can form one (`Images.ListOrderCycle`, `Images.CycleUnsortable`).
- Two `since` or two `before` filters do not commute when one goes by tag or id and the other by digest, because images
  without digest end the one and are passed over by the other (`Images.CutsCommuteExactly`).
- A replaced `<none>` name means that the rejoined pair is not the tag; exactly when is stated (`Images.RejoinGivesTag`).
- While the benchmark consumer announces the end it can still finish if and only if a waiter is in its select
  (`Benchmark.AnnouncementHeardExactly`); a run that leaves it blocked for ever is given
  (`Benchmark.AnnouncementCanGoUnheard`).

Any configuration that a program can obtain survives any number of writes and a read (`ConfigLaws.EveryWriteCanBeRead`):
its tree comes from a successful read or is created empty. The writer alone would also accept a tree with a key that is
no option, and `ConfigLaws.ReadAfterWrite` says what a read would then report, but no caller of `ReadConfig` and
`WriteConfig` can build such a tree (`ConfigLaws.ReadableHasNoUnknown`).

## Model

| member | source | states |
|---|---|---|
| Aggregate.SendNeverBlocks | cmd/crictl/util.go:677-683 | in every reachable state, under every schedule, a goroutine about to send finds a free slot |
| Aggregate.NeverStuck | cmd/crictl/util.go:677-693 | until the caller has returned some goroutine can take a step |
| Aggregate.EveryRunEnds | cmd/crictl/util.go:677-693 | no schedule is longer than a bound fixed by the functions, so every run ends |
| Aggregate.JoinedErrors | cmd/crictl/util.go:685-692 | on return all goroutines have exited, the channel is empty, the joined errors are as a multiset exactly the non-nil results, and the error is nil if and only if all functions succeeded |
| Aggregate.EveryInterleaving | cmd/crictl/util.go:677-693 | a property of a function's own calls that each of its actions keeps holds for that function under every interleaving with the others |
| Removal.CallsAlwaysOrderly | cmd/crictl/container.go:415-461 | at every moment of every interleaving: status first, stop only second and only with force of something running, removal only of what was not running or after a successful stop, log files deleted only after a successful removal without keep-logs; and the result and all calls of a worker that has ended, for each way the replies can go |
| Removal.LogsGone | cmd/crictl/container.go:437-456 | after a successful removal without keep-logs and with a log path: every rotation that was found is deleted, in order (none if the search failed), then the log; otherwise nothing is |
| Removal.SucceedsIffAllRemoved | cmd/crictl/container.go:415-461 | the command returns no error if and only if every worker got a good reply to its removal, and if and only if the flags, ids and replies allow it |
| Removal.CommandReturns | cmd/crictl/container.go:415-461 | the command is never stuck before it returns, and no run is longer than a fixed bound |
| Removal.WorkerOutcome | cmd/crictl/sandbox.go:150-179 | a worker that has ended reports no error if and only if it removed its target, and if and only if status, force and stop (when running) and removal all went well |
| Removal.BodyTerminates | cmd/crictl/container.go:415-461 | every worker body returns, whatever the runtime and the file system answer |
| Interrupt.StopClosedAtMostOnce | cmd/crictl/util.go:62-84 | however many calls race through the Once, at most one stop channel is made and one handler started, no caller waits on a channel that is not there, and it is closed at most once, after a signal was taken |
| Interrupt.SetupNeverStuck | cmd/crictl/util.go:69-84 | while a call is in the setup, some call can take a step of it, so the Once never deadlocks |
| Interrupt.ExitNeedsTwoSignals | cmd/crictl/util.go:75-80 | the handler ends the process only after it took two signals and closed the channel |
| Interrupt.ProcessExits | cmd/crictl/util.go:71-80 | the process ends by a signal before anything is registered, or by the handler after two signals, and not otherwise |
| Interrupt.FirstSignalCloses | cmd/crictl/util.go:75-77 | from every reachable state with a waiting handler, a signal leads to the closed channel, and every waiting caller can then leave |
| Interrupt.SecondSignalExits | cmd/crictl/util.go:78-79 | from every reachable state after that, a further signal leads to the end of the process |
| Interrupt.SignalsAreBuffered | cmd/crictl/util.go:72-73 | a registered channel keeps up to two signals, and each is taken once |
| Interrupt.AtMostOneMessage | cmd/crictl/util.go:93-105 | at most one message ever enters the two result channels of a call |
| Interrupt.WorkerNeverBlocks | cmd/crictl/util.go:93-105 | the goroutine of a call can always send, also after its caller left on an interrupt |
| Interrupt.CallerNeverStuck | cmd/crictl/util.go:107-116 | the waiting caller can leave its select if and only if the reply was sent or the stop channel is closed |
| Interrupt.ReturnedFaithfully | cmd/crictl/util.go:86-117 | a call returns the very reply of its RPC or, only after a signal closed the channel, an interruption with the first cause of its context; its context is cancelled on every return |
| Interrupt.ParentCancelShows | cmd/crictl/util.go:90-111 | if the parent is cancelled first, its cause stays, and any later interruption reports it |
| Strconv.ParseFormatInt | pkg/common/file.go:139-143 | reading a printed integer gives it back over the whole 64-bit range |
| Strconv.ParseFormatBool | pkg/common/file.go:144-148 | reading a printed boolean gives it back |
| Strconv.ParseBoolAccepts | pkg/common/file.go:144-148 | the six spellings of true and the six of false are accepted, with that meaning, and no other text is |
| ConfigFile.Config.Assign | cmd/crictl/config.go:160-206 | sets the one field the key names, to the parsed value; an unknown key or a bad value is an error and changes no field |
| ConfigOptions.SetKeyFields | cmd/crictl/config.go:160-206 | a text is accepted if and only if it parses for the option, and then sets that option and keeps the six others |
| ConfigOptions.SetRendered | pkg/common/file.go:138-166 | the text written for an option, read back, sets that option to what was written and no other |
| ConfigOptions.TextOptions | pkg/common/file.go:135-138 | `runtime-endpoint` and `image-endpoint` set the fields of these names to any text |
| ConfigOptions.NumberOptions | pkg/common/file.go:139-143 | `timeout` and `max-retries` set the fields of these names to the value of an integer that fits, and refuse anything else |
| ConfigOptions.SwitchOptions | pkg/common/file.go:144-158 | `debug`, `pull-image-on-create` and `disable-pull-on-run` set the fields of these names, and refuse what is no boolean |
| ConfigOptions.OtherNames | cmd/crictl/config.go:201-202 | any name but the seven is an error |
| ConfigOptions.SettingsInText | pkg/common/file.go:175-183 | what is written, option by option in order: key, text and tag |
| ConfigFile.OverwriteValues | pkg/common/file.go:197-212 | in place, in the heap: exactly the values under the given key are replaced, all duplicates included; says whether there was one |
| ConfigFile.SetConfigOption | pkg/common/file.go:186-256 | creates the mapping if there is none, replaces all values of the key or appends one new pair of fresh nodes; every old node stays in its place |
| ConfigFile.SetConfigOptions | pkg/common/file.go:175-183 | the seven options are written in the fixed order; old nodes keep their identity and position and only fresh nodes are added |
| ConfigView.SetEachClosed | pkg/common/file.go:175-256 | a series of writes in closed form: old entries in place with the written keys' values replaced, then each missing option once, in order |
| ConfigLaws.WriteEntry | pkg/common/file.go:175-256 | no old entry loses its kind, tag or comment, keys and foreign values are untouched, and only missing options are appended |
| ConfigView.LastWriteWins | pkg/common/file.go:175-256 | of two series of writes of the same keys only the last leaves a trace |
| ConfigLaws.WriteTwice | pkg/common/file.go:175-183 | writing twice equals writing the second options once, so writing is idempotent |
| ConfigFile.GetConfigOptions | pkg/common/file.go:113-172 | the loop over the heap returns a fresh configuration with the decoded options, or the first error |
| ConfigFile.ReadPair | pkg/common/file.go:127-169 | a file with one option, for each of the seven keys in text: the field of that name has the value and the six others are empty, zero or off; or the error |
| ConfigFile.WriteNew | pkg/common/file.go:89-99 | a new tree is one document with one mapping, and has the seven keys in order, each with the value and tag of its field |
| ConfigLaws.DecodeOverrides | pkg/common/file.go:127-169 | reading succeeds if and only if every pair is a known option with an acceptable text, and then each option has the value of its last pair, or zero |
| ConfigLaws.ReadAfterWrite | pkg/common/file.go:113-256 | on every mapping, empty, with duplicates or with bad values, reading after writing gives exactly the seven options written, or reports the first key that is no option |
| ConfigLaws.UnknownKeys | pkg/common/file.go:167-168 | the round trip succeeds if and only if every key of the mapping is an option |
| ConfigLaws.ReadableHasNoUnknown | pkg/common/file.go:113-172 | what could be read can be written and read again |
| ConfigLaws.EveryWriteCanBeRead | pkg/common/file.go:66-110 | from an empty tree or one that was read, any number of writes can be read, and the last options written come back |
| ConfigFile.WriteConfig | pkg/common/file.go:89-99 | a missing configuration or tree is created, then the options are written into the tree in place |
| ConfigFile.WriteThenRead | pkg/common/file.go:66-110 | the seven fields of a configuration survive writing and reading, in the heap |
| ConfigSet.SetAndWrite | cmd/crictl/config.go:107-126 | all pairs of all settings are applied and then written to the tree; on any error the whole tree is unchanged |
| ConfigSet.SetAndReadBack | cmd/crictl/config.go:79-126 | in the heap, reading a tree, setting, writing and reading again: it fails if and only if the file or a piece cannot be read, and then the tree is as it was; otherwise the last of all pairs counts for each option |
| ConfigSet.ApplySettingsLaw | cmd/crictl/config.go:107-124 | the settings are accepted if and only if every comma-separated piece is one known key, one equals sign and an acceptable value, and then the last pair of each key counts |
| ConfigSet.SetThenRead | cmd/crictl/config.go:107-126 | reading what was stored gives the pairs of the file overridden from left to right by the pairs of the settings |
| ConfigSet.SplitPair | cmd/crictl/config.go:112-119 | a piece is a pair if and only if it has exactly one equals sign, and the pair is what stands on its two sides |
| ConfigSet.OnePair | cmd/crictl/config.go:112-121 | a setting `k=v` sets the option `k` from `v` |
| ConfigSet.CommaSeparates | cmd/crictl/config.go:109-111 | pieces separated by a comma have the effect of separate settings |
| ConfigSet.NotAPair | cmd/crictl/config.go:113-115 | a piece without exactly one equals sign is refused |
| ConfigSet.MalformedSetting | cmd/crictl/config.go:113-115 | the error names the whole setting, with the pieces before the wrong one |
| Text.SplitPieces | cmd/crictl/config.go:110-112 | splitting loses nothing, gives one piece more than there are separators, and leaves none in a piece |
| Strconv.ParseIntAccepts | pkg/timetype/timestamp.go:133-143 | a text parses as an integer if and only if it is an optional sign and at least one digit, and its value fits 64 bits; and then that value is the result |
| Strconv.ParseIntOverflow | pkg/timetype/timestamp.go:133-136 | an integer that does not fit is reported as out of range, with the nearest bound |
| Timestamp.ParsePrint | pkg/timetype/timestamp.go:117-150 | for all 64-bit seconds and all nanoseconds the printed text is parsed to the same pair |
| Timestamp.PrintedForm | pkg/timetype/timestamp.go:117 | the printed text is the seconds, a point and nine digits whose value is the nanoseconds |
| Timestamp.DefaultSeconds | pkg/timetype/timestamp.go:122-125 | the empty text gives the default and no nanoseconds, and no other text depends on it |
| Timestamp.ParseFailures | pkg/timetype/timestamp.go:133-145 | what comes with an error: no nanoseconds if the seconds are no integer, and else the seconds |
| Timestamp.FractionScaled | pkg/timetype/timestamp.go:130-150 | a fraction of one to nine digits becomes exactly that many nanoseconds, fewer than a billion |
| Timestamp.AddIsFloor | pkg/timetype/timestamp.go:48-50 | adding a duration with truncating division and taking whole seconds is the floor of the exact sum, for all signs |
| Timestamp.DurationIsSubtracted | pkg/timetype/timestamp.go:48-50 | a duration is subtracted from the reference and rounded down to a second, if and only if it is not the least 64-bit one, which is added |
| Timestamp.ReturnedTextIsAccepted | pkg/timetype/timestamp.go:47-150 | every text GetTimestamp returns is accepted by ParseTimestamps and names the instant it was made from |
| Timestamp.GivenBackExactly | pkg/timetype/timestamp.go:105-115 | GetTimestamp errs if and only if the value is no duration and no time and has a dash or is no number of seconds; one that is no duration and no time is given back if and only if it is one or two integers joined by a point, without a dash |
| Timestamp.NotGivenBack | pkg/timetype/timestamp.go:41-46 | the text `no-time`, which no parser takes, is an error and is not given back |
| Timestamp.LogTimeErrors | cmd/crictl/logs.go:220-236 | the log command's parser fails if and only if the text is neither duration nor time and has a dash or is no number of seconds, always with the first error path; and it gives no time if and only if the text is empty |
| Timestamp.LogTimeOfTime | cmd/crictl/logs.go:225-235 | for a text that reads as a time the result is its seconds and nanoseconds |
| Timestamp.LogTimeOfText | cmd/crictl/logs.go:225-235 | for a date with any time and zone, in text, the result is what the right parser with the right layout answers |
| Timestamp.LogTimeOfDuration | cmd/crictl/logs.go:225-235 | for a duration but the least it is now minus the duration, rounded down to a second, with no nanoseconds |
| Timestamp.LogTimeOfSeconds | cmd/crictl/logs.go:225-235 | for an integer it is that many seconds |
| Timestamp.LogTimeOfFraction | cmd/crictl/logs.go:225-235 | for two integers around a point it is the first, and the second scaled by the number of its characters |
| Timestamp.LayoutMatchesText | pkg/timetype/timestamp.go:54-101 | for every date, with a time down to any precision and a zone in any form, the chosen layout has exactly the components present, and the local zone is used if and only if the text has none |
| Images.NormalizeRepoTagPair | cmd/crictl/image.go:713-738 | one pair for each tag, cut at its last colon, and at least one pair in all cases |
| Images.RejoinGivesTag | cmd/crictl/image.go:713-738 | rejoining a pair gives the tag back if and only if it has a colon and its name was not replaced by another one |
| Images.PairOfTag | cmd/crictl/image.go:721-735 | a tag is taken apart at its last colon, where the name `<none>` is replaced; a tag without colon gives the stand-ins |
| Images.NameOfDigest | cmd/crictl/image.go:740-751 | name and digest are what is before and after the one `@` of the first digest, or the stand-ins |
| Images.TagOfImage | cmd/crictl/image.go:866-869 | the text that a value is compared with, from the first tag and the first digest of an image |
| Images.ReverseInPlace | cmd/crictl/image.go:840-843 | the array holds its old contents in reverse |
| Images.FilterImagesList | cmd/crictl/image.go:832-858 | the chain on slices computes the chain on values, in a fresh slice, and never writes to the caller's slice although it reverses in place through an alias |
| Images.FlagsInOrder | cmd/crictl/image.go:836-857 | flags are applied in the order given, up to the first error |
| Images.SinceFlag | cmd/crictl/image.go:850-851 | `since=v`, with `v` without `@`: the images before the first whose tag text is `v`, or whose id starts with `v` |
| Images.BeforeFlag | cmd/crictl/image.go:838-843 | `before=v`, likewise: the images after the last such one |
| Images.DigestFlags | cmd/crictl/image.go:883-892 | both with `@`: by digest, without the images that have none; and nothing at all without a colon |
| Images.DanglingFlag | cmd/crictl/image.go:844-845 | `dangling=true` keeps in order exactly the images without tags, `dangling=false` the others, any other value none |
| Images.ReferenceFlag | cmd/crictl/image.go:846-849 | `reference=v` keeps in order exactly the images whose name the pattern matches or is; a bad pattern is an error |
| Images.UnknownFlag | cmd/crictl/image.go:852-853 | a flag with none of the four prefixes is an error |
| Images.SincePrefix | cmd/crictl/image.go:860-896 | by tag or id, since keeps the longest prefix without the named image |
| Images.BeforeSuffix | cmd/crictl/image.go:839-843 | by tag or id, before keeps what follows the last named image |
| Images.SinceDigest | cmd/crictl/image.go:883-892 | by digest, since keeps the images with digest from the prefix before the named one |
| Images.BeforeDigest | cmd/crictl/image.go:839-843 | by digest, before keeps the images with digest from the suffix after the last named one |
| Images.ChainGivesSubsequence | cmd/crictl/image.go:832-930 | whatever the chain, its result is the input with images left out, in the same order |
| Images.CutsAreIdempotent | cmd/crictl/image.go:860-896 | since and before are idempotent for every form of value |
| Images.CutsCommuteExactly | cmd/crictl/image.go:860-896 | two since or two before filters commute on all lists if and only if their values have the same form or one of them keeps nothing |
| Images.ChainIsConjunction | cmd/crictl/image.go:898-930 | a chain of dangling and reference filters is accepted if and only if all patterns compile, and then is one conjunctive filter |
| Images.ChainOrderIrrelevant | cmd/crictl/image.go:898-930 | such chains with the same members have the same result in any order and multiplicity |
| Images.ListOrderInText | cmd/crictl/image.go:809-819 | ascending by first tag if both have one, else by first digest if both have one, else by id |
| Images.TransitiveExactly | cmd/crictl/image.go:809-819 | the comparator is transitive on three kinds of images if and only if all pairs are compared by the same kind of name |
| Images.ListOrderCycle | cmd/crictl/image.go:809-819 | a strict cycle of three images that mixes tagged and untagged ones |
| Images.SortedArrangement | cmd/crictl/image.go:809-819 | a list whose images are all compared by the same kind of name has an arrangement that is sorted for all pairs |
| Images.SortableExactly | cmd/crictl/image.go:809-819 | a list of images has an arrangement that is in order for all pairs if and only if its strict order has no circle |
| Images.CycleUnsortable | cmd/crictl/image.go:809-819 | the three images of the cycle have no sorted arrangement |
| Rmi.SelectImages | cmd/crictl/image.go:445-505 | an image is removed if and only if it was named, or listed under all or prune and not pinned under prune, and is not in use under prune |
| Listing.TruncateCount | cmd/crictl/util.go:695-706 | never more than there are; at most `last` if that is positive, else at most one if `latest`, and that many if there are enough; everything if neither is set |
| Listing.GetList | cmd/crictl/container.go:1409-1443 | the result is a true top-n of the matches: descending, of the right size, and no dropped match is newer than a kept one; or the first error |
| Listing.PrefixIsTop | cmd/crictl/sandbox.go:748-752 | cutting any descending arrangement of the matches is a top-n, however ties are ordered |
| Listing.MatchingMembers | cmd/crictl/container.go:1420-1436 | exactly the items whose image matches, that have metadata and whose name and namespace match the given patterns, each as often as it was listed |
| Listing.MatchingErrors | cmd/crictl/container.go:1422-1425 | filtering fails if and only if some image cannot be checked, with the first such image |
| Benchmark.NothingLost | pkg/benchmark/util.go:152-186 | at every step registered plus in hand is what was sent, in order, and sent plus pending is everything |
| Benchmark.WriteAllowedExactly | pkg/benchmark/util.go:133-136 | in every reachable state the guard passes if and only if the consumer was not started or has seen the nil |
| Benchmark.WrittenFileIsComplete | pkg/benchmark/util.go:133-136 | once the consumer was started a file passes the guard only with each datapoint exactly once, and before with those of the start |
| Benchmark.AwaitedResultsAreComplete | pkg/benchmark/util.go:114-130 | once the consumer was started, AwaitAllResults returns without error only when the datapoints are complete |
| Benchmark.TimeoutIsReported | pkg/benchmark/util.go:120-129 | a wait reports an error if and only if it timed out |
| Benchmark.CompleteStays | pkg/benchmark/util.go:152-186 | complete datapoints never change again |
| Benchmark.StreamNeverStuck | pkg/benchmark/util.go:152-186 | while the consumer runs a sender or the consumer can move |
| Benchmark.AnnouncementHeardExactly | pkg/benchmark/util.go:114-130 | in every reachable state in which the consumer announces the end, it can still finish if and only if a waiter is in its select |
| Benchmark.AnnouncementCanGoUnheard | pkg/benchmark/util.go:163-171 | a concrete run after which the announcing consumer has no waiter, although the waiter was told that all is well |
| NriLog.NRITestPlugin.RecordPodEvent | pkg/validate/nri_util_linux.go:305-317 | in place or on a larger copy of the array, the log grows by the event, without a container, and keeps all others |
| NriLog.NRITestPlugin.RecordContainerEvent | pkg/validate/nri_util_linux.go:319-333 | in place or on a larger copy of the array, the log grows by the event and keeps all others |
| NriLog.NRITestPlugin.Reset | pkg/validate/nri_util_linux.go:242-249 | the content becomes empty on a new array, the old array is not written, and readiness stays |
| NriLog.NRITestPlugin.Events | pkg/validate/nri_util_linux.go:231-239 | the elements of the log, copied into an array of their own |
| NriLog.NRITestPlugin.WaitForEventCount | pkg/validate/nri_util_linux.go:268-290 | whatever others do between the polls: a copy of the log at the first poll that finds enough, or after the last one nothing, with the number of events at the end |
| NriLog.IsolateSnapshot | pkg/validate/nri_util_linux.go:231-239 | whatever is done to the plugin later a snapshot stays, and overwriting an element of the snapshot changes nothing in the plugin |
| NriLog.NRITestPlugin.LastRunPodSandboxID | pkg/validate/nri_util_linux.go:254-265 | the backward loop returns the pod of the latest run event, as the specification function does |
| NriLog.LastRunIsLatest | pkg/validate/nri_util_linux.go:254-265 | whenever no run event follows a run event, its pod is the one returned |
| NriLog.LastRunOfNone | pkg/validate/nri_util_linux.go:264 | without a run event the result is empty |
| NriLog.NRITestPlugin.Synchronize | pkg/validate/nri_util_linux.go:96-125 | captures the ids in order, becomes ready unless the hook fails, and never closes the channel a second time |
| NriLog.FilterEventsByPodID | pkg/validate/nri_util_linux.go:293-303 | the loop computes the filtered log of the specification function |
| NriLog.ForPodConcat | pkg/validate/nri_util_linux.go:293-303 | filtering keeps the order: it distributes over parts of the log |
| NriLog.ForPodMembers | pkg/validate/nri_util_linux.go:293-303 | filtering keeps each event of the pod as often as it was logged, and no other |
| NriLog.TimestampsInOrder | pkg/validate/nri_util_linux.go:305-333 | under every interleaving the timestamps never decrease along the log |
| NriLog.MutualExclusion | pkg/validate/nri_util_linux.go:61-62 | at most one goroutine is inside |
| NriLog.Serializable | pkg/validate/nri_util_linux.go:231-333 | although operations read the slice, write it and copy it in separate steps, whenever the mutex is free the content is what the operations leave one after the other, and each snapshot shows what the operations before it left |
| NriLog.Replay | pkg/validate/nri_util_linux.go:231-333 | whenever the mutex is free, the array-based object, taken through the operations of the interleaving in that order, has the same content |
| NriLog.EveryPollAnswered | pkg/validate/nri_util_linux.go:268-290 | every completed call of Events got a snapshot, and a poll got none only if there were too few events |
| NriLog.RecordsNow | pkg/validate/nri_util_linux.go:319-333 | whatever time passes, a recorder inside appends its arguments with the time at which it read the clock |
| NriLog.SnapshotsArePrefixes | pkg/validate/nri_util_linux.go:231-290 | until the next reset every snapshot, copied element by element, is a prefix of the log and of the later snapshots, and a wait that returns has at least the events it asked for |
| NriLog.GrowsBetweenResets | pkg/validate/nri_util_linux.go:242-333 | from every reachable state on, until a reset the log only grows: no concurrent recorder overwrites the event of another |
| NriLog.SnapshotStaysPrefix | pkg/validate/nri_util_linux.go:231-303 | a snapshot filtered by pod is a prefix of the filtered log in every reachable state with no reset since |
| NriLog.ReadyClosedOnce | pkg/validate/nri_util_linux.go:96-125 | however many Synchronize calls run at once, through hook and Once, the channel is closed at most once, before any of them returns without error, and not unless some hook has passed |
| Retry.ConnectWithRetry | cmd/crictl/crictl_config.go:278-313 | at most n + 1 connects and n waits, each wait of its prescribed length and their sum the prescribed total, no connect after a success, a failure carries the last error, a negative n fails only by cancellation |
| Retry.DelayDoubles | cmd/crictl/crictl_config.go:309 | the doubled and capped delay is the prescribed one for the next wait |
| Retry.FirstDelays | cmd/crictl/crictl_config.go:287-309 | the waits are 500, 1000, 2000, 4000 and then 5000 milliseconds |
| Retry.TotalDelayClosed | cmd/crictl/crictl_config.go:287-310 | the total that the loop's waits add up to is 7500 + 5000 (n - 4) milliseconds for n waits, n at least 4 |

## Left out

- gRPC clients, streaming, TLS, attach, exec, port forwarding: the replies of the runtime are arbitrary values.
- YAML and JSON text, protobuf, templates and the disk: a configuration is the tree of nodes, before it is marshalled and
  after it is parsed. Node anchors and aliases are not followed.
- `time.Parse`, `time.ParseDuration`, `regexp`: arbitrary functions; which layout or pattern they are given is modelled.
- The clock and the Go memory model: timers may fire at any moment, flags are read and written atomically.
- Command line flags, default endpoints, credentials, tables, completion and the Ginkgo suites apart from the event log.
- ConfigFile.SetConfigOptions: the seven calls that the source writes out are a loop over the fixed list of options.
- ConfigFile.WriteThenRead: a mapping has an even number of entries, as YAML mappings do; reading and writing single
  options is modelled for odd numbers too.
- ConfigFile.Config.Assign: serves both `getConfigOptions` and `setValue`, which have the same switch; the wording of
  their error messages is not modelled.
- Timestamp.FractionScaled: fractions of more than nine characters are scaled in floating point, which is not exact;
  that scaling is an arbitrary function of the model.
- Timestamp.DurationIsSubtracted: the reference is within 2^62 seconds of the epoch, so that no sum leaves 64 bits.
- Images.FilterImagesList: what one image means to a filter is a function (`Examine`, `Passes`) that the loops call,
  instead of branches inside the loops. Images are values, so sharing of the image objects themselves is not modelled.
- Listing.GetList: the library's sort is an insertion sort; which order ties get is not promised, and `PrefixIsTop` covers
  every order. Containers and pods are one kind of item; for pods the image check always succeeds. The answer
  of that check depends on the image name only.
- Removal.CallsAlwaysOrderly: what the runtime and the file system will answer to a worker is fixed before the run, per
  worker, and is otherwise arbitrary; a pod worker is one that keeps its logs. A removal that is abandoned on an interrupt
  counts as not removed, even if the runtime carries it out later.
- Rmi.SelectImages: the removal workers that follow, and the early returns when a list request fails, are not modelled.
- Retry.ConnectWithRetry: an endless retry is watched for an arbitrary but fixed number of rounds.
- Benchmark.WrittenFileIsComplete: one session per manager, and without the panic when the consumer times out.
- NriLog.NRITestPlugin.WaitForEventCount: the deadline is a number of polls, and what other goroutines do during a sleep is
  a list of operations; the hooks of the plugin only succeed or fail.
- NriLog.ReadyClosedOnce: `sync.Once` is written out, here and for the signal handler, as its fast look, its lock, its
  second look, the call and its flag.
