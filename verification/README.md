# Verified models of the selfhosted services

Dafny models of the parts of this repository that carry an algorithm or a protocol, with proofs over
all inputs, all runs and all interleavings. `dafny verify dfyconfig.toml` checks everything.

| file | what it models |
|---|---|
| `Names.dfy` | options, and the byte order in which the filer lists names |
| `FilerUrls.dfy` | the recovery walk's request URLs, put together without escaping, and what they address |
| `RecoverySpec.dfy`, `Recovery.dfy`, `RecoveryResults.dfy`, `RecoveryFates.dfy` | the recovery walk, which renames entries of the directory it is still paging through: what a run does to a tree with and without pages, the walk itself, what whole runs guarantee, and the fate of each file by the replies alone |
| `Broadcast.dfy`, `Broadcaster.dfy` | the fan-out of light updates: as operations on values with a publish log, and as the objects the service updates in place |
| `LightPipeline.dfy`, `LightHistory.dfy`, `LightConvergence.dfy` | a light change on its way from the device to an open page, as a step system, its states in terms of the steps taken, and when the page converges |
| `Bits.dfy`, `BTHome.dfy` | the BTHome v2 decoder of the Shelly script with its masks and shifts, and an encoder to state what it decodes |
| `Sse.dfy` | the event stream's printer against the parser of sections 9.2.5 and 9.2.6 of the WHATWG HTML Living Standard |
| `S3Copy.dfy` | chunked uploads, target names and the concurrent copy from S3 to Cloudreve |
| `MqttReplies.dfy`, `Leader.dfy`, `ButtonDedup.dfy` | MQTT calls and their replies, the leader flag, the duplicate filter for button packets |
| `TempCache.dfy` | the temperature caches shared by all open pages |

## How the outside is modelled

- Recovery: `Env` holds every answer from outside: the filer's replies by the path a request addresses, the
  snapshots by key, and the page for each directory, cursor and set of names. The proofs show each file is checked
  at most once per run, and a directory's cursor only moves forward, so this loses nothing. The filer lists names strictly after the cursor in byte order, in
  pages of any size, sets load-more exactly when names remain (`Honest`), has no other writer, takes a rename onto a
  file or a free name (never onto a directory), and keeps a file as it was when an upload to it fails. One entry of
  a page is one step; the entries of a page finish in any order.
- Request URLs: `Address` is what Go's `net/url` makes of a URL behind a root URL of scheme and host: cut at `#`,
  then at `?`, then percent-decoded; bad escapes and control characters make no request. Names are strings of bytes.
  The walk's results are for trees on which every request reaches its own path, which is so exactly when no name
  used has `#`, `?`, `%` or a control character (`RequestsReachExactlyWhenPlain`).
- Light pipeline: steps are taken in any order, any number of pages may be open, and notifications may be sent
  again. `Inner` steps are those of the service; `Lossless` says that status reads succeed and that a
  notification is dropped at a full queue only while its light is still queued. The stream between the two
  services is a first-in first-out pipe. A page that left or was evicted is no longer registered.
- BTHome: factors are exact reals. The proofs hold for every object table without the names `encryption`
  and `BTHome_version`, which are the result's own keys in the script; `BTH` is the script's table.
- S3 copy: `net/http` fails a request whose body has another length than stated, except that a stated length of 0
  counts as unknown and sends the whole body; a chunk is read through a limit, so there a longer body is cut. A
  server that accepts an upload has stored what was sent. A listing has each key once, and the existence check, when
  it answers, tells the truth. Tasks interleave freely with each other and with the listing. A failed upload may
  leave anything at its own target.
- MQTT: deliveries are at least once (section 4.3.2 of MQTT 5.0). Call ids are decimal numbers and distinct.
- Leader: the lock service fires `Lost` when it takes the lock away, before it grants it again.
- Clocks are arguments and do not go back. A lookup in the duplicate filter reads the clock while it holds the
  cache; a store and a clean-up read it before, so they may take effect late. Clean-ups do not take the lock that
  deliveries take and fall anywhere, also between a delivery's lookup and its store.

Some properties one might expect of the code do not hold. Each has a concrete input or run, and its exact condition:

- A directory named `d#1` beside `d` is never listed (`HashedDirectoryIsNeverListed`), and a check or an upload for
  `a#1` goes to `a` (`HashReachesAnother`, `QuestionMarkReachesAnother`); exact condition in
  `RequestsReachExactlyWhenPlain`. The paging loop of such a directory goes on exactly as long as its first page,
  asked for in every round, says there is more (`RunsExactlyWhileMore`); in a dry run, which changes nothing, that
  is for ever (`NeverEnds`).
- A dry run can promise more restored files than a real run delivers (`DryRunOverpromises`; exact condition in
  `DryRunPredictsRealRun`).
- A full queue of one light loses another light's change (`DropLosesAChange`; exact conditions in
  `ConvergesExactlyWhenCovered` and `DropConverges`).
- A row with a carriage return does not survive the stream (`CarriageReturnIsLost`; exact condition in
  `StreamSurvivesExactlyWithoutCR`).
- A replica whose loop was cancelled, and one whose loss is not yet observed, keep their button gate open beside the
  new leader's (`CancelledLeaderKeepsItsGate`, `UnobservedLossOpensTwoGates`; exact condition in
  `GateIsTheHoldersExactly`).
- Two keys can share a target (`TwoKeysOneTarget`; exact condition in `CollideExactly`).
- An object of 50 MiB or more that is longer than listed is cut short without an error (`LongerThanListed`; exact
  condition in `FaithfulCopy`).

## Model

| member | source | states |
|---|---|---|
| `FilerUrls.FileRequest` | dev-go/cmd/recovery/main.go:167 | a check or an upload reaches its own path if and only if the path has no `#`, `?`, `%` or control character |
| `FilerUrls.ListRequest` | dev-go/cmd/recovery/main.go:136-139 | a listing request reaches its own directory and cursor under exactly the same condition on the path, for every cursor |
| `FilerUrls.RenameRequest` | dev-go/cmd/recovery/main.go:263 | a rename request names its own source and marked target under exactly that condition |
| `FilerUrls.HashLosesCursor` | dev-go/cmd/recovery/main.go:136-139 | with a hash in the path every listing request of the directory is the first one again |
| `FilerUrls.QuestionMarkLosesCursor` | dev-go/cmd/recovery/main.go:136-139 | with a question mark in the path, and no `=`, every listing request asks another directory for its first page |
| `FilerUrls.RunsExactlyWhileMore` | dev-go/cmd/recovery/main.go:92-130 | on such a directory, for answers that may differ from round to round, the paging loop is still running after k rounds if and only if the first listing request, made in each of them, was answered with more |
| `FilerUrls.NeverEnds` | dev-go/cmd/recovery/main.go:92-130 | so it runs for ever when the answers do not change, as in a dry run, and the first says there is more |
| `FilerUrls.RenderInjective` | dev-go/cmd/recovery/main.go:167 | different files are addressed by different paths |
| `Recovery.ListDirectory` | dev-go/cmd/recovery/main.go:135-162 | builds the URL, which is shown to reach the directory and the cursor, and gets a page under the assumed contract of the filer, or nothing |
| `Recovery.TryRestore` | dev-go/cmd/recovery/main.go:206-254 | yields the newer snapshot if it exists and uploads, else the older one likewise, else nothing; a dry run takes the first that exists and writes nothing |
| `Recovery.MarkMissing` | dev-go/cmd/recovery/main.go:256-280 | renames the file to its marked name if the filer takes it, and only in a real run |
| `Recovery.CheckAndRecover` | dev-go/cmd/recovery/main.go:164-204 | on a plain path, counts the file once under its outcome, touches only its own name and its marked name, and writes only when the check was answered with 500 |
| `Recovery.ProcessEntry` | dev-go/cmd/recovery/main.go:103-122 | one entry keeps the directory's invariant: directories are walked, marked files skipped, other files dealt with |
| `Recovery.ProcessPage` | dev-go/cmd/recovery/main.go:100-124 | a page keeps the invariant in whatever order its entries finish |
| `Recovery.WalkAndRecover` | dev-go/cmd/recovery/main.go:88-133 | on every tree of plain names the walk terminates although renames add names past the cursor; whichever requests and listings fail, the files checked with their outcomes, the failed listings, the tree and the counters are those of the specification |
| `RecoverySpec.UnfailedTree` | dev-go/cmd/recovery/main.go:88-133 | when no listing fails the tree is the one of a specification without pages, cursor or order |
| `RecoveryResults.RequestsReachExactlyWhenPlain` | dev-go/cmd/recovery/main.go:135-280 | all listings, checks, uploads and renames of a tree reach their own path and cursor if and only if no name on the way to a directory or an unmarked file has `#`, `?`, `%` or a control character |
| `RecoveryResults.HashReachesAnother` | dev-go/cmd/recovery/main.go:136-167 | the checks, uploads and listings of any name with a hash address the entry named before the hash, at its first page, or are not sent if a bad escape follows |
| `RecoveryResults.QuestionMarkReachesAnother` | dev-go/cmd/recovery/main.go:136-167 | those of any name with a question mark address the entry named before it, and the cursor becomes part of the query that it starts |
| `RecoveryResults.HashedDirectoryIsNeverListed` | dev-go/cmd/recovery/main.go:136-139 | a tree with a file that has to be scanned, in a directory of which every listing request goes to its sibling |
| `RecoveryResults.MarkedFullPath` | dev-go/cmd/recovery/main.go:117 | the suffix test on the full path is the suffix test on the file's name, for the literal suffix |
| `RecoveryResults.ReachedExactlyWhenPassed` | dev-go/cmd/recovery/main.go:92-98 | a file to be scanned is left out exactly when a listing of a directory above it fails at a cursor before it |
| `RecoveryResults.ScannedExactlyOnce` | dev-go/cmd/recovery/main.go:88-133 | exactly the files that the listings reach are checked, each once, whichever listings fail; without failures they are exactly the files that were unmarked at the start |
| `RecoveryResults.RunsAgree` | dev-go/cmd/recovery/main.go:88-133 | for the same answers from outside, failed listings included, the order in which entries finish changes neither the tree, nor the counters, nor the outcomes, nor the failed listings |
| `RecoveryResults.PagingDoesNotMatter` | dev-go/cmd/recovery/main.go:88-133 | when no listing fails the pages do not matter either |
| `RecoveryResults.RunBalances` | dev-go/cmd/recovery/main.go:88-133 | healthy + restored + missing + errors = scanned + failed listings, over the whole recursion |
| `RecoveryResults.DryRunChangesNothing` | dev-go/cmd/recovery/main.go:221-225 | a dry run leaves every entry of the tree as it was, whatever fails |
| `RecoveryResults.DryRunPredictsRealRun` | dev-go/cmd/recovery/main.go:164-236 | without failed listings, a dry run writes nothing and agrees on scanned, healthy, errors and restored + missing; the real run restores no more, and as many if and only if every lost file with a backup has one that uploads |
| `RecoveryResults.DryRunOverpromises` | dev-go/cmd/recovery/main.go:221-232 | two runs of the walk over one lost file: the dry run reports it restored, the real run missing |
| `RecoveryResults.TargetsAfter` | dev-go/cmd/recovery/main.go:196-203 | the unmarked files after a run are those before it that were not renamed, with the backup's bytes where restored |
| `RecoveryResults.SecondRunIsIdle` | dev-go/cmd/recovery/main.go:88-133 | without failed listings, and with a filer that gives the same reply for the same file and bytes in both runs, a second run reports scanned = healthy if and only if the first had no errors, every rename was accepted and restored files are readable; it then writes and changes nothing |
| `RecoveryFates.OutcomesFollowReplies` | dev-go/cmd/recovery/main.go:164-236 | over whole runs, a checked file is healthy exactly on a 200, lost exactly on a 500, restored exactly if then a snapshot can be had and missing if not, and an error on anything else; only files answered with 500 are written to, only in real runs; the counters count these replies |
| `RecoveryFates.FateOfAFile` | dev-go/cmd/recovery/main.go:182-280 | in a real run, whichever listings fail, a reached file keeps its bytes unless it got a 500; then it holds those of `snapshot2/`, else of `snapshot/`, else it is found under its name with `.missing_7jun26`, bytes unchanged, unless the rename is refused |
| `RecoveryFates.OthersAreLeftAlone` | dev-go/cmd/recovery/main.go:88-133 | files that are not reached, and marked files without an unmarked twin, are as before |
| `RecoveryFates.NothingElseIsNew` | dev-go/cmd/recovery/main.go:256-263 | every name that a run adds is the marked name of a reached file, and a dry run adds none |
| `Broadcast.StepKeeps` | dev-go/services/s-rpc-mqtt/mqtt_lights_watch.go:107-147 | every operation keeps: registered channels are open with at most 16 pending, a closed hub has no subscribers, and received + buffered is one contiguous run of the log |
| `Broadcast.RunKeeps` | dev-go/services/s-rpc-mqtt/mqtt_lights_watch.go:107-147 | gap-free delivery and channel safety in every reachable state |
| `Broadcast.EndsExactlyAt` | dev-go/services/s-rpc-mqtt/mqtt_lights_watch.go:117-146 | over every run, a subscription's recorded end is its unsubscribe, a close or a publish that finds 16 pending, whichever comes first, at the length the log had then; it is live if and only if none came |
| `Broadcast.RunHistory` | dev-go/services/s-rpc-mqtt/mqtt_lights_watch.go:124-136 | the log is what was published, in order, and a channel's receipts number the receive operations on it |
| `Broadcast.SubscriberGetsWhatIsPublished` | dev-go/services/s-rpc-mqtt/mqtt_lights_watch.go:107-136 | what a subscriber has received are the first updates published after it subscribed, in order, and while it is live the rest is in its channel |
| `Broadcast.OthersDoNotMatter` | dev-go/services/s-rpc-mqtt/mqtt_lights_watch.go:124-136 | taking all other subscribers out of a run leaves a subscriber's channel exactly as it was |
| `Broadcaster.Channel.TrySend` | dev-go/services/s-rpc-mqtt/mqtt_lights_watch.go:129-131 | a send that does not block; callers must prove the channel open |
| `Broadcaster.Channel.Close` | dev-go/services/s-rpc-mqtt/mqtt_lights_watch.go:133 | closing; callers must prove the channel is not closed yet |
| `Broadcaster.LightBroadcaster.Subscribe` | dev-go/services/s-rpc-mqtt/mqtt_lights_watch.go:107-122 | a new channel, registered, or already closed when the broadcaster is |
| `Broadcaster.LightBroadcaster.Unsubscribe` | dev-go/services/s-rpc-mqtt/mqtt_lights_watch.go:117-121 | removes the registration and is harmless after eviction or close |
| `Broadcaster.LightBroadcaster.FanOut` | dev-go/services/s-rpc-mqtt/mqtt_lights_watch.go:128-135 | for every iteration order: full channels are closed and dropped, the others get the update |
| `Broadcaster.LightBroadcaster.Publish` | dev-go/services/s-rpc-mqtt/mqtt_lights_watch.go:124-136 | refines the publish on values and appends to the log |
| `Broadcaster.LightBroadcaster.Close` | dev-go/services/s-rpc-mqtt/mqtt_lights_watch.go:138-147 | refines the close on values: every registered channel closed once, none left registered |
| `Broadcaster.LightBroadcaster.Receive` | dev-go/services/s-rpc-mqtt/handler.go:76-79 | takes the oldest pending update, also from a closed channel |
| `LightPipeline.CoveredStep` | dev-go/services/s-rpc-mqtt/mqtt_lights_watch.go:67-93 | a lossless step keeps a registered page on its way to a light's state, and an inner step can neither lose nor create that |
| `LightPipeline.CoveredRun` | dev-go/services/s-web-home/handler.go:137-252 | the same for whole runs, wherever the snapshot falls among the changes |
| `LightHistory.DeviceFollowsChanges` | dev-go/services/s-rpc-mqtt/mqtt_lights_watch.go:76-93 | a light is what its last change made it |
| `LightHistory.QueueIsFirstInFirstOut` | dev-go/services/s-rpc-mqtt/mqtt_lights_watch.go:67-84 | of at most 32 pending notifications the reader takes the oldest; none is taken twice or left out |
| `LightHistory.EveryReadIsPublished` | dev-go/services/s-rpc-mqtt/mqtt_lights_watch.go:76-93 | what is published are the full statuses at the successful reads, once each, in order |
| `LightHistory.LeftForGood` | dev-go/services/s-rpc-mqtt/mqtt_lights_watch.go:117-121 | a page that has left is never registered again |
| `LightHistory.StoppedForGood` | dev-go/services/s-rpc-mqtt/mqtt_lights_watch.go:78-82 | once the reader has stopped nothing is published and no page is registered, whoever opens one |
| `LightConvergence.Drain` | dev-go/services/s-rpc-mqtt/mqtt_lights_watch.go:78-93 | every registered page can be brought to rest by service steps alone, without loss |
| `LightConvergence.ConvergesExactlyWhenCovered` | dev-go/services/s-web-home/handler.go:137-252 | at rest after every lossless continuation a page shows a light's id with its full output, if and only if it is covered now |
| `LightConvergence.OpenCovers` | dev-go/services/s-rpc-mqtt/handler.go:63-70 | subscribing before reading the snapshot is what makes a new page covered |
| `LightConvergence.Convergence` | dev-go/services/s-web-home/handler.go:137-252 | in every lossless run from the start, a drained page that is still open shows every light with the full output that its last change gave it |
| `LightConvergence.DropConverges` | dev-go/services/s-rpc-mqtt/mqtt_lights_watch.go:67-74 | the states in which a dropped notification is made up for, exactly |
| `LightConvergence.FailedReadConverges` | dev-go/services/s-rpc-mqtt/mqtt_lights_watch.go:85-89 | the states in which a failed status read is made up for, exactly |
| `LightConvergence.DropLosesAChange` | dev-go/services/s-rpc-mqtt/mqtt_lights_watch.go:67-74 | a run with successful reads that ends at rest with a stale row |
| `Bits.OrAdds` | misc/shelly/button_to_mqtt.js:69-75 | or-ing into the bits a shift left free is addition, at every width |
| `Bits.HighestBit` | misc/shelly/button_to_mqtt.js:57-60 | the bit under the sign mask is set exactly from half the range up, at every width |
| `BTHome.BitsAreArithmetic` | misc/shelly/button_to_mqtt.js:57-91 | the masks, shifts and sign test of all six readers compute little-endian positional notation and two's complement, and refuse exactly the buffers that are too short |
| `BTHome.ReadWrite` | misc/shelly/button_to_mqtt.js:57-91 | reading inverts little-endian two's complement for every kind and every value in range |
| `BTHome.WriteRead` | misc/shelly/button_to_mqtt.js:57-91 | every value read is in range, and writing it gives its bytes back |
| `BTHome.ObjectsAreAPrefix` | misc/shelly/button_to_mqtt.js:108-135 | the objects read are encoded by a prefix of the buffer; what follows is empty, an unknown id or a cut value |
| `BTHome.ObjectsAreTheLongest` | misc/shelly/button_to_mqtt.js:108-135 | every run of whole known objects that starts the buffer is a prefix of those read |
| `BTHome.ReadsWhatWasEncoded` | misc/shelly/button_to_mqtt.js:108-135 | any list of encodable objects is read back in order, whatever follows it |
| `BTHome.AddReading` | misc/shelly/button_to_mqtt.js:119-132 | one more reading takes a field from absent to a number to an array, in order |
| `BTHome.UnpackFields` | misc/shelly/button_to_mqtt.js:104-136 | terminates on every buffer with exactly the readings of the objects read, per name |
| `BTHome.Unpack` | misc/shelly/button_to_mqtt.js:94-137 | absent unless version 2, bare if encrypted, else exactly those readings |
| `BTHome.UnpackEncoded` | misc/shelly/button_to_mqtt.js:94-137 | unpacking an encoded packet gives all values of each name in order, also for names shared by two ids, and nothing else |
| `BTHome.UnpackOne` | misc/shelly/button_to_mqtt.js:94-137 | for every table, a packet with one object unpacks to its name with its scaled value and nothing else |
| `BTHome.UnpackMeaning` | misc/shelly/button_to_mqtt.js:30-45 | for each of the 13 objects the script knows and all its bytes, the packet unpacks to that object's name with the value in its unit, signed and scaled as listed |
| `Sse.RenderLightEvent` | dev-go/services/s-web-home/handler.go:254-266 | prints the event line, one data line per line of the row, and the blank line |
| `Sse.StreamRoundTrip` | dev-go/services/s-web-home/handler.go:188-251 | the browser reads any stream of comments, rows without carriage return and temperatures as exactly the events sent, in order |
| `Sse.StreamSurvivesExactlyWithoutCR` | dev-go/services/s-web-home/handler.go:259-264 | for any rows at all, that holds if and only if no row has a carriage return |
| `Sse.CarriageReturnIsLost` | dev-go/services/s-web-home/handler.go:259-264 | a row that is not read as it was sent |
| `Sse.FeedTemp` | dev-go/services/s-web-home/temperature.go:78-81 | a printed temperature event is read as one event of its kind |
| `S3Copy.ChunkedUpload` | dev-go/cmd/s3-to-cloudreve/main.go:303-336 | without a session nothing is sent; otherwise ceil(size/chunk) chunks, together the first size bytes, all but the last of the session's chunk length, or one chunk if that is at most 0; a failure at index k leaves exactly the first k |
| `S3Copy.CopyObject` | dev-go/cmd/s3-to-cloudreve/main.go:263-336 | an upload that goes through has stored the object's bytes on the simple path, and as many as were listed on the chunked path; otherwise the download, the session or a request failed, or the length did not fit |
| `S3Copy.CollideExactly` | dev-go/cmd/s3-to-cloudreve/main.go:198-200 | two listed keys share a target exactly when one's remainder is a slash and the other's, which has no slash in front |
| `S3Copy.AloneExactly` | dev-go/cmd/s3-to-cloudreve/main.go:198-200 | a key has its target to itself exactly when no other listed key is such a twin |
| `S3Copy.TwoKeysOneTarget` | dev-go/cmd/s3-to-cloudreve/main.go:198-200 | under prefix `p` the keys `pa` and `p/a` have one target |
| `S3Copy.TargetIs` | dev-go/cmd/s3-to-cloudreve/main.go:198-200 | a key's target is the directory and what follows the prefix, without one slash in front |
| `S3Copy.FolderIs` | dev-go/cmd/s3-to-cloudreve/main.go:186-189 | the keys skipped as folders are those that end in a slash |
| `S3Copy.LongerThanListed` | dev-go/cmd/s3-to-cloudreve/main.go:322-329 | an object of 50 MiB and one byte, listed at 50 MiB, is stored without its last byte |
| `S3Copy.FaithfulCopy` | dev-go/cmd/s3-to-cloudreve/main.go:162-235 | in every interleaving, after a complete run without errors a key with an unshared, previously absent target is there: byte by byte if and only if it was listed below 50 MiB or at its size, and otherwise cut to the listed size |
| `S3Copy.ExistingFilesAreKept` | dev-go/cmd/s3-to-cloudreve/main.go:207-214 | in every interleaving, a file that was there keeps its bytes as long as the existence checks for it are answered, and in a complete real run every key that maps to it ends skipped |
| `S3Copy.FailedCheckOverwrites` | dev-go/cmd/s3-to-cloudreve/main.go:207-216 | when the check fails the object is uploaded over whatever is there |
| `S3Copy.EveryTargetFilled` | dev-go/cmd/s3-to-cloudreve/main.go:162-235 | every key's target then holds its earlier content or what was sent for a key that maps to it |
| `S3Copy.CountersCoverTheListing` | dev-go/cmd/s3-to-cloudreve/main.go:182-225 | after a complete real run uploaded + skipped + errors is the number of listed keys |
| `S3Copy.DryCopyWritesNothing` | dev-go/cmd/s3-to-cloudreve/main.go:182-205 | a dry run stores nothing, counts neither uploads nor errors, and skips exactly the folders listed |
| `MqttReplies.ReplyTopicsDistinct` | dev-go/services/s-rpc-mqtt/mqtt.go:185-189 | two calls share a reply topic exactly when device and id are the same |
| `MqttReplies.CallStep` | dev-go/services/s-rpc-mqtt/mqtt.go:184-243 | every step keeps: a call has a handler on its own topic until it returns, whose channel holds the first packet on that topic since it was added until the call takes it |
| `MqttReplies.HandlersAreCallsInFlight` | dev-go/services/s-rpc-mqtt/mqtt.go:192-207 | in every reachable state the registered handlers are exactly those of the calls that have not returned, by whatever path |
| `MqttReplies.PassOn` | dev-go/services/s-rpc-mqtt/mqtt.go:192-206 | passing a packet to every handler in any order gets through without waiting and has one result |
| `MqttReplies.RedeliveryChangesNothing` | dev-go/services/s-rpc-mqtt/mqtt.go:200-204 | a packet whose channel is full changes no handler and no call |
| `MqttReplies.DeliveryReachesOneCall` | dev-go/services/s-rpc-mqtt/mqtt.go:192-206 | a delivery, also a repeated one, changes at most one handler |
| `MqttReplies.RepliesCorrelate` | dev-go/services/s-rpc-mqtt/mqtt.go:166-244 | in every run a packet returned is the first on the call's own topic since its handler was added, and on no other call's |
| `MqttReplies.ReturnsTheReplyExactlyWhenTaken` | dev-go/services/s-rpc-mqtt/mqtt.go:209-243 | in every run a call returns the first packet on its topic if and only if it took one, after its subscribe and publish went through, and an error if and only if one of them was refused or its deadline passed |
| `MqttReplies.EveryPacketIsTakenOnce` | dev-go/services/s-rpc-mqtt/mqtt.go:184-205 | a packet that entered a call's channel is taken once or still there |
| `Leader.InvStep` | dev-go/services/s-rpc-mqtt/mqtt.go:58-83 | until a loop exits, its flag is up exactly from the store after the grab to the store after the observed loss |
| `Leader.GateNeedsAGrant` | dev-go/services/s-rpc-mqtt/mqtt.go:58-83 | over every run, a gate is open if and only if it was raised and not lowered since, and then the lock was granted and false not stored since: after an observed loss it stays closed until the next grant |
| `Leader.GateIsTheHoldersExactly` | dev-go/services/s-rpc-mqtt/mqtt.go:129-134 | for any number of replicas and any revocations, an open gate is the lock holder's if and only if its loop has not exited and its loss has not fired |
| `Leader.AtMostOneLeader` | dev-go/services/s-rpc-mqtt/mqtt.go:129-134 | of two replicas with open gates, one has exited or lost the lock, and only the other can hold it |
| `Leader.UnobservedLossOpensTwoGates` | dev-go/services/s-rpc-mqtt/mqtt.go:77-80 | any two running replicas can have open gates while a loss is not yet observed |
| `Leader.CancelledLeaderKeepsItsGate` | dev-go/services/s-rpc-mqtt/mqtt.go:73-76 | a cancelled leader's gate stays open beside the next leader's, because the loop exits without clearing the flag |
| `ButtonDedup.RefinesHistory` | dev-go/services/s-rpc-mqtt/mqtt_handle_button.go:24-37 | over every run of lookups, stores and clean-ups, with clean-ups anywhere, each lookup answers as the whole history of stores would |
| `ButtonDedup.LetThroughAfterAGap` | dev-go/services/s-rpc-mqtt/mqtt_handle_button.go:29-56 | with the lock, a delivery let through comes more than a window after the lookup and the store of every earlier one of its id, duplicates included |
| `ButtonDedup.LockIsNeeded` | dev-go/services/s-rpc-mqtt/mqtt_handle_button.go:26-34 | without it, two deliveries of one id can be let through at the same moment |
| `ButtonDedup.SeenPids.PidSeen` | dev-go/services/s-rpc-mqtt/mqtt_handle_button.go:29-37 | with any clean-ups between its lookup and its store, answers from the history and records the delivery, whether or not it was a duplicate |
| `ButtonDedup.SeenPids.DeleteExpired` | dev-go/services/s-rpc-mqtt/mqtt_handle_button.go:23-24 | a clean-up, at any moment and however late, changes no later answer |
| `TempCache.CachedTemp.Temperature` | dev-go/services/s-web-home/temperature.go:45-61 | answers and updates as the run of calls so far says |
| `TempCache.AnswersAreRecent` | dev-go/services/s-web-home/temperature.go:45-61 | every answer is the result of the call's own fetch or of the last one, recorded less than a period before, and `--°C` exactly if that fetch failed |
| `TempCache.FetchesAreRare` | dev-go/services/s-web-home/temperature.go:45-61 | fetches starting within a stretch of length T number at most T/period + 1 |
| `TempCache.Scaffold.Serve` | dev-go/services/s-web-home/temperature.go:30-36 | however calls to the two caches are interleaved, each is answered as by a cache that gets its own calls alone |

## Left out

- Generated protobuf and gRPC code, the protoc plugin, Nix, HCL, Terraform, SQL and dashboards: no algorithm to prove.
- HTTP, S3, Consul, Vault, MQTT and database clients: foreign calls, modelled by the contracts above.
- JSON parsing, HTML row rendering, tracing, logging and metrics: messages and rows are modelled as values.
- `changedLight`, `findLight`, `parseS3URI`, `setLight` and the button-to-light mapping: easy decisions on strings and numbers.
- `sendTemps`: that an unchanged temperature is not sent again would be one easy member; its events are in the stream model.
- Recovery.WalkAndRecover: is for trees of names without `#`, `?`, `%` and control characters. On other trees the code misses files and visits others twice; what its requests then reach is proved, the run as a whole is not modelled.
- Recovery.ProcessPage: the same condition on names, because the directories on the page are walked.
- Recovery.ProcessEntry: the same condition on names.
- Recovery.CheckAndRecover: the same condition on the file's path, without which the check reads another file.
- Recovery.TryRestore: the same condition on the file's path, without which the upload writes another file.
- Recovery.MarkMissing: the same condition on the file's path, without which the rename has another target.
- Recovery.ListDirectory: the same condition on the directory's path, without which another directory is listed.
- Concurrency inside one page of the recovery walk below the level of one entry, and its unlocked counter updates: one entry is one step.
- A failed S3 listing, after which the copy returns without waiting for its tasks: copy results are for runs in which every listing succeeds.
- `copyAll`, `leaderState.run`, `shellyRPCRespAny`, `WatchLights` and `lightEvents` are step systems rather than loops, because their results are about interleavings; update in place is modelled for the broadcaster, the duplicate filter and the temperature cache.
- Timers, timeouts and liveness of the retry loops: timeouts are steps that may happen at any moment.
- `haversineKm`, the CO2 factors, the airport parser, the autoscaler and the portfolio statistics: floating point or easy members.
