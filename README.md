# eventkit, modelled in Dafny

eventkit is a telemetry pipeline. An instrumented Go program records
events: a name, a scope (a list of path segments), a timestamp and typed
tags. It sends them over UDP to a collector. This project models the core
of that pipeline and proves its properties. Each part keeps the form of its
source: pure Go code becomes functions and lemmas; code that updates
state becomes classes and methods with loop invariants.

- **Front end** (scope.go, registry.go). A Scope turns a name and
  key/value arguments into an event map. The Registry fans each map out
  to its senders in registration order.
- **Client** (client.go). Events are batched into an outgoing packet:
  the bytes "EK", then a zlib stream holding a header Packet message, one
  Packet message per event and a trailer carrying the send offset. The
  packet tracks a byte budget. The run loop takes events from a bounded
  queue, counts dropped events, flushes on ticks and drains on
  cancellation.
- **Transport** (transport/udp.go). The receiver checks the magic
  number, decompresses and decodes. The end-to-end theorem is that a
  datagram the client builds decodes to the packet it meant: protobuf
  messages merge on concatenation, so the events come back in order.
- **Batching** (destination/batch.go, eventkitd-bigquery/bigquery/batch.go).
  A buffer is forwarded whole once it reaches the threshold, on a tick
  when non-empty, and at shutdown. The forwarded batches concatenate to
  the accepted events.
- **On-disk formats**:
  - the delimited frame stream, with its writer and two generations of
    readers;
  - the 4-byte length-prefixed protostream, in two generations;
  - the reversible path escaping and scope encoding of the daemon's
    files, in two generations.
- **BigQuery writers**:
  - table and column naming;
  - schema extension for new tags;
  - the protobuf descriptor and row conversion of the Storage Write API;
  - SaveRecord's 500-row chunks, with the fallback to insertAll after the
    first failure in a table;
  - the metadata and stream caches;
  - the receiver sinks' clock correction (corrected start = reception
    time minus send offset) and grouping of records by table;
  - the two destinations;
  - the layered `type:key=value|...` destination configuration.
- **Tools**:
  - the receiver's in-memory store and its counting views;
  - the terminal browser's count ordering and reselection;
  - the events-to-csv header union and row projection;
  - Prometheus name sanitising and the per-output registry cache;
  - the cursor of the event-query language parser.

Several parts are stand-ins for code outside the repository's core:
- a protobuf wire codec for the subset the messages use;
- a zlib codec limited to stored (uncompressed) deflate blocks;
- a simulated BigQuery dataset that counts its remote calls and can be
  told which tables fail;
- io readers and writers as byte sequences.

Go's map iteration order, clock readings and the renderings Go delegates
to fmt and time are parameters. Go panics are an explicit outcome
(`Wrappers.Outcome`). Go strings are sequences of byte-sized chars.

## Model

| member | source | states |
|---|---|---|
| Eventkit.Scope.Event | scope.go:16-28 | the event map is submitted once exactly when the arguments are even in number and every key is a string; an odd count panics with "tag name/value pairs unmatched", a non-string key with Go's interface conversion panic, and a panic submits nothing |
| Eventkit.PairedPanics | scope.go:21-24 | reading the pairs panics exactly when some even-position argument is not a string |
| Eventkit.PairedKeys | scope.go:21-24 | a key is in the map exactly when some pair names it |
| Eventkit.PairedLastWins | scope.go:21-24 | a key repeated in the arguments maps to the value of its last pair |
| Eventkit.OddArgumentsPanic | scope.go:17-19 | an odd number of arguments panics before any pair is read |
| Eventkit.ReservedKeysWin | scope.go:25-27 | "name", "scope" and "timestamp" are written after the tags and win over tags with those keys |
| Eventkit.OtherKeysFromTags | scope.go:21-27 | every other key of the submitted map comes from the tags, with the tags' value |
| Eventkit.PairedPrefixPanics | scope.go:21-24 | once a prefix of the arguments panics, the whole call panics with the same message |
| Eventkit.Deliveries | registry.go:32-36 | one delivery per sender, in registration order, each carrying the same map |
| Eventkit.Registry.constructor | registry.go:11 | a new registry has no senders and has delivered nothing |
| Eventkit.Registry.Scope | registry.go:13-18 | a root scope of this registry named by the one-element list [name] |
| Eventkit.Registry.AddOutput | registry.go:23-25 | the sender is appended after the existing ones; nothing is delivered |
| Eventkit.Registry.Submit | registry.go:32-36 | the deliveries grow by exactly one (sender, map) pair per sender, in order; the senders are unchanged |
| Eventkit.Scope.constructor | registry.go:13-18 | a scope holds its registry and its name |
| Eventkit.Scope.Subscope | scope.go:12-14 | a new scope of the same registry whose name is this scope's name followed by `name` |
| Prometheus.Sanitize | eventkitd/listener/prometheus.go:86-109 | "" stays ""; a leading digit gains a '_' in front; every rune maps to itself when an ASCII letter or digit and to '_' otherwise |
| Prometheus.SanitizeIsName | eventkitd/listener/prometheus.go:86-109 | every non-empty input becomes a valid metric name: it starts with no digit and holds only letters, digits and '_' |
| Prometheus.SanitizeIdempotent | eventkitd/listener/prometheus.go:86-109 | sanitizing a sanitized name changes nothing |
| Prometheus.PrometheusEndpoint.constructor | eventkitd/listener/prometheus.go:29-34 | a new endpoint caches no registry |
| Prometheus.PrometheusEndpoint.RegistryForRequest | eventkitd/listener/prometheus.go:72-83 | a cached output-id gets its cached registry and changes nothing; an unseen one gets a newly derived registry that is then cached; distinct output-ids never share a registry |
| Repo.Repo.constructor | tools/eventkit-receiver/repo.go:18-23 | a new store holds no events and no counters |
| Repo.Repo.Add | tools/eventkit-receiver/repo.go:25-27 | the event is appended last; nothing else changes |
| Repo.Repo.Count | tools/eventkit-receiver/repo.go:73-75 | the number of stored events, which is also the sum of GetScopes' counts |
| Repo.Repo.GetScopes | tools/eventkit-receiver/repo.go:29-35 | the tally of the events' scope keys (segments joined with ".") |
| Repo.Repo.GetNames | tools/eventkit-receiver/repo.go:37-45 | the tally of the names of the events whose scope key is `scope` |
| Repo.Repo.GetTags | tools/eventkit-receiver/repo.go:47-57 | the tally of every tag key of the events with that scope and name, repeats included |
| Repo.Repo.GetCounts | tools/eventkit-receiver/repo.go:59-71 | the tally of the printed values of tag `tag` over the events with that scope and name |
| Repo.CountKeys | tools/eventkit-receiver/repo.go:51-55 | counting one event's tag keys on top of a tally gives the tally of the keys appended |
| Repo.CountValues | tools/eventkit-receiver/repo.go:63-69 | counting one event's values of `tag` on top of a tally gives the tally of those values appended |
| Repo.NamesCount | tools/eventkit-receiver/repo.go:29-45 | a scope's names are as many as that scope key's occurrences |
| Repo.ValuesOfCount | tools/eventkit-receiver/repo.go:47-71 | one key's values in a tag list are as many as that key's occurrences |
| Repo.ValuesCount | tools/eventkit-receiver/repo.go:47-71 | over the events of a scope and name, a tag's values are as many as its key's occurrences |
| Repo.ScopesSumToCount | tools/eventkit-receiver/repo.go:29-35 | the counts of GetScopes add up to the number of events |
| Repo.NamesSumToScope | tools/eventkit-receiver/repo.go:29-45 | the counts of GetNames(scope) add up to GetScopes()[scope], or 0 for an unseen scope |
| Repo.CountsSumToTag | tools/eventkit-receiver/repo.go:47-71 | the counts of GetCounts(scope, name, tag) add up to GetTags(scope, name)[tag], or 0 |
| Repo.RepeatedKeyCountsTwice | tools/eventkit-receiver/repo.go:51-55 | a key given twice in one event counts twice in GetTags |
| Repo.JoinedScopesCollide | tools/eventkit-receiver/types.go:22-24 | the scopes ["a.b"] and ["a", "b"] share one scope key |
| Counting.Bump | tools/eventkit-receiver/repo.go:32 | `m[k]++` adds `k` to the keys |
| Counting.TallyCounts | tools/eventkit-receiver/repo.go:29-35 | a key is counted exactly when it occurs, and its count is its number of occurrences |
| Counting.TotalBump | tools/eventkit-receiver/repo.go:32 | one `m[k]++` adds one to the sum of the counts |
| Counting.TotalTally | tools/eventkit-receiver/repo.go:29-35 | the counts of a tally add up to the number of keys counted |
| Top.CountsFromMap | tools/eventkit-tui/top.go:36-45 | one entry per key of the map, in iteration order, with the given class, the key as name and the key's count; no name twice |
| Top.DoSort | tools/eventkit-tui/top.go:47-54 | the result is sorted (more counts first, equal counts by name in byte order) and is a permutation of the input |
| Top.InOrderTotal | tools/eventkit-tui/top.go:48-53 | any two entries are in order one way or the other |
| Top.InOrderTransitive | tools/eventkit-tui/top.go:48-53 | the order of the less function is transitive |
| Top.InOrderAntisymmetric | tools/eventkit-tui/top.go:48-53 | entries in order both ways have the same count and name |
| Top.SortedStrict | tools/eventkit-tui/top.go:47-54 | with distinct names the sorted order is strict: more counts first, equal counts by strictly increasing name |
| Top.SortedUnique | tools/eventkit-tui/top.go:36-54 | two sorted lists of the same entries with distinct names are equal, so the sorted view does not depend on map iteration order |
| Top.InsertStart | tools/eventkit-tui/top.go:47-54 | a sorted prefix plus one entry is a valid start of the insertion step |
| Top.SwapDown | tools/eventkit-tui/top.go:47-54 | swapping an entry below a neighbour it goes before keeps the insertion state |
| Top.InsertDone | tools/eventkit-tui/top.go:47-54 | when the neighbour goes before the entry, or there is none, the prefix is sorted |
| Top.FirstMatch | tools/eventkit-tui/top.go:88-95 | the first index whose entry has the name, or none when no entry has it |
| Top.ListView.constructor | tools/eventkit-tui/top.go:64-66 | a new list widget has its first entry selected |
| Top.ListView.Select | tools/eventkit-tui/top.go:91 | the widget's selection becomes the index |
| Top.Reselect | tools/eventkit-tui/top.go:88-95 | selects the first entry named like the old selection; with no such entry the selection is untouched |
| EventsToCsv.TagValueString | eventkitd/utils/events-to-csv/main.go:24-43 | panics with "unknown tag type" exactly for an unset value or the Duration variant; strings are themselves, integers read back with Atoi, bytes are lower-case hex that decodes back |
| EventsToCsv.RecordToRow | eventkitd/utils/events-to-csv/main.go:45-59 | the row of the record (the eight fixed columns, then one "tag:" column per tag); a record without a timestamp panics with the nil dereference, otherwise the first tag that cannot be rendered panics |
| EventsToCsv.RowPanics | eventkitd/utils/events-to-csv/main.go:45-59 | a row panics exactly when the record has no timestamp or some tag cannot be rendered, and a missing timestamp is the nil-dereference panic |
| EventsToCsv.WithTagsPanics | eventkitd/utils/events-to-csv/main.go:55-57 | a row panics exactly when one of its tags cannot be rendered |
| EventsToCsv.WithTagsPrefixPanics | eventkitd/utils/events-to-csv/main.go:55-57 | once a prefix of the tags panics, the whole row panics with the same message |
| EventsToCsv.FixedColumns | eventkitd/utils/events-to-csv/main.go:47-54 | every row that is built comes from a record with a timestamp and carries name, scope (EncodeScope of the scope), application, version, instance, source_addr, timestamp and timestamp_correction with the record's values, untouched by tags |
| EventsToCsv.TagColumnNotFixed | eventkitd/utils/events-to-csv/main.go:47-56 | no "tag:" column is one of the eight fixed columns |
| EventsToCsv.TagColumnInjective | eventkitd/utils/events-to-csv/main.go:56 | distinct tag keys get distinct columns |
| EventsToCsv.WithTagsKeepsOthers | eventkitd/utils/events-to-csv/main.go:55-57 | writing tags leaves every non-tag column as it was |
| EventsToCsv.TagColumnLastWins | eventkitd/utils/events-to-csv/main.go:55-57 | a tag column holds the rendering of the last tag with that key |
| EventsToCsv.RowsOf | eventkitd/utils/events-to-csv/main.go:78-92 | a file yields one row per record read |
| EventsToCsv.RowsInOrder | eventkitd/utils/events-to-csv/main.go:78-92 | the i-th row of a file is the row of its i-th record |
| EventsToCsv.ReadFile | eventkitd/utils/events-to-csv/main.go:67-93 | a file whose path does not parse yields no rows; otherwise its records' rows |
| EventsToCsv.ReadRecords | eventkitd/utils/events-to-csv/main.go:78-92 | the rows of the records in order, or the first panic |
| EventsToCsv.CollectRows | eventkitd/utils/events-to-csv/main.go:63-99 | the rows of every file, file after file, or the first panic |
| EventsToCsv.Insert | eventkitd/utils/events-to-csv/main.go:104 | inserting into a strictly sorted list keeps it strictly sorted and adds exactly the new string |
| EventsToCsv.Header | eventkitd/utils/events-to-csv/main.go:88-104 | the header is strictly sorted and holds exactly the columns some row has |
| EventsToCsv.Project | eventkitd/utils/events-to-csv/main.go:110-119 | one line per row in row order, each with one cell per header column, "" where the row lacks the column |
| EventsToCsv.NothingLost | eventkitd/utils/events-to-csv/main.go:88-119 | every cell of every row appears in that row's line under its own column |
| EventsToCsv.Convert | eventkitd/utils/events-to-csv/main.go:61-125 | a panicking record (no timestamp, or a tag that cannot be rendered) panics the run; otherwise a sorted header of exactly the rows' columns followed by one projected line per row |
| Uel.Parser.constructor | eventkitd/private/uel/uel.go:25-37 | the cursor starts at position 0, line 1, column 1, on the first rune or on -1 for an empty source |
| Uel.Parser.Eof | eventkitd/private/uel/uel.go:81-83 | true exactly when the position is at or past the end |
| Uel.Parser.Char | eventkitd/private/uel/uel.go:85-90 | the rune `lookahead` places from the cursor, or -1 when that place is before the start or past the end |
| Uel.Parser.Step | eventkitd/private/uel/uel.go:44-55 | one rune consumed: a newline starts the next line at column 1, any other rune moves the column by one, and the current rune follows the position |
| Uel.Parser.Advance | eventkitd/private/uel/uel.go:39-58 | errors exactly when the distance runs past the end, then stopping at the end; otherwise the position moves by the distance (not at all for a distance of 0 or less), the line by the newlines passed and the column as the runes passed say |
| Uel.Parser.Checkpoint | eventkitd/private/uel/uel.go:60-62 | the position, column and line |
| Uel.Parser.Restore | eventkitd/private/uel/uel.go:64-71 | the position, column and line are set and the current rune is re-read, -1 at the end |
| Uel.Parser.RestoreCheckpoint | eventkitd/private/uel/uel.go:60-71 | restoring a checkpoint just taken changes nothing |
| Uel.Parser.SkipComment | eventkitd/private/uel/uel.go:96-116 | not on '#': nothing moves and nothing is skipped; on '#': skips to the next newline (left unconsumed) after the rune following '#', or to the end |
| Uel.Parser.SkipWhitespace | eventkitd/private/uel/uel.go:118-134 | at the end nothing is skipped; otherwise one comment, or one of ' ', '\t', '\r', '\n' |
| Uel.Parser.SkipAllWhitespace | eventkitd/private/uel/uel.go:136-148 | skips until nothing more is skipped, and reports a skip exactly when the cursor moved |
| Uel.Lines | eventkitd/private/uel/uel.go:44-46 | the line number moves by the number of newlines consumed: at most one per rune, none when no newline is consumed |
| Uel.ColAfter | eventkitd/private/uel/uel.go:44-49 | without a newline the column moves by the number of runes; after a final newline it is 1; it never drops below 1 |
| Uel.ConsumeConcat | eventkitd/private/uel/uel.go:39-58 | consuming two stretches in turn moves line and column as consuming them together does |
| Uel.ColAfterLastLine | eventkitd/private/uel/uel.go:44-49 | after a newline the column counts the runes since the last newline, plus one |
| Uel.Chain | eventkitd/private/uel/uel.go:39-58 | line and column moved over two adjacent stretches are moved over their union |
| Uel.NextNewline | eventkitd/private/uel/uel.go:104-115 | the first newline at or after a position, or the end when there is none |
| Uel.WhitespaceStepAdvances | eventkitd/private/uel/uel.go:118-134 | every skip moves the cursor strictly forward and stays within the source |
| Uel.SkipAllStops | eventkitd/private/uel/uel.go:136-148 | skipping stops at the end or on a rune that is neither '#' nor white space |
| Uel.EmptyCommentRunsOn | eventkitd/private/uel/uel.go:100-115 | a '#' directly followed by a newline does not end there: the comment runs on to the end of the next line |
| BqConfig.CreateDestination | bigquery/config.go:24-131 | the configuration is split at '|' and read layer by layer; the result is the last layer's destination, or the first error or panic met |
| BqConfig.ApplyLayer | bigquery/config.go:28-125 | one layer, trimmed of Unicode white space: blank or unknown types are skipped; a layer without ':' is an error; bigquery, parallel and batch layers read their parameters and replace the layer so far; a batch layer builds the layer so far at once, panicking with nothing before it or on a negative queue size |
| BqConfig.ParseBigQuery | bigquery/config.go:38-57 | the parameters of a bigquery layer read as key=value pairs with appName, project, dataset or credentialsPath; the first malformed pair or unknown key is an error |
| BqConfig.ParseWorkers | bigquery/config.go:66-82 | the workers parameter of a parallel layer, an error for a non-number or any other key (whose message names the value, as the source's does) |
| BqConfig.ParseBatch | bigquery/config.go:90-117 | queueSize, batchSize and flushInterval of a batch layer, an error for a non-number, a bad duration or any other key |
| BqConfig.BqParamsAccepted | bigquery/config.go:39-57 | a bigquery layer's parameters are accepted exactly when each is key=value with one of the four keys |
| BqConfig.BqLastValueWins | bigquery/config.go:44-52 | a key given again later wins: appending key=value sets that field and keeps the rest |
| BqConfig.CutFirst | bigquery/config.go:32-40 | strings.Cut splits at the first separator: a prefix without it is recovered |
| BqConfig.IgnoredLayers | bigquery/config.go:28-36 | blank layers and layers of unknown type leave the layer so far unchanged |
| BqConfig.LayersFromAppend | bigquery/config.go:27-126 | running two lists of layers is running the first, then the second from where the first left off |
| BqConfig.NothingRecognised | bigquery/config.go:127-129 | a configuration made only of skipped layers is the error "No evenkit destinatino is defined" |
| BqConfig.AddressIsNoDestination | bigquery/config.go:24-129 | a bare listen address such as "127.0.0.1:1234" names no destination: its type "127.0.0.1" is unknown, so it adds no layer and the configuration fails with the no-destination error |
| BqConfig.UnknownLayerIgnored | bigquery/config.go:32-36 | a layer type:rest of a type the parser does not know is skipped |
| BqConfig.BatchWithoutPrevious | bigquery/config.go:118 | a batch layer with no layer before it calls a nil closure once its parameters parse |
| BqConfig.BatchFirstPanics | bigquery/config.go:118 | a batch layer after only skipped layers panics with a nil dereference |
| BqConfig.ParallelDefersBuild | bigquery/config.go:84-87 | a parallel layer wraps the layer so far without building it, so building the parallel layer succeeds even when the inner one would fail |
| BqConfig.BatchBuildsAtOnce | bigquery/config.go:118-124 | a batch layer builds the layer so far at once: a panic of that build is raised, its error is returned, otherwise the batch wraps the built destination |
| BqConfig.NegativeQueuePanics | destination/batch.go:31-34 | a batch built over a batch whose queueSize is negative panics, since NewBatchQueue makes a channel of that capacity |
| Client.EventPackets | client.go:157 | one single-event Packet message per event, as many as there are events |
| Client.EventPacketsAppend | client.go:157 | the per-event messages of two event lists are the messages of each, concatenated |
| Client.EncodedAppend | client.go:164 | writing two runs of messages into the stream writes the bytes of each, one after the other |
| Client.EncodedSnoc | client.go:164 | writing one more message appends exactly its encoding to the stream |
| Client.EncodedWire | client.go:105-120 | with the protocol-buffer codec the stream is the concatenated encoding of the messages |
| Client.StreamAdd | client.go:149-167 | adding an event appends exactly that event's Packet message to the stream |
| Client.StreamFresh | client.go:105-120 | a new packet's stream holds only the header message with the identity and start time |
| Client.Datagrams | client.go:233-251 | the datagrams of the sent packets, one per packet, in order |
| Client.PbContents | client.go:150-155 | one name/scope/tags triple per encoded event |
| Client.EventContents | client.go:150-155 | one name/scope/tags triple per submitted event |
| Client.PbContentsAppend | client.go:150-155 | the contents of two event lists are the contents of each, concatenated |
| Client.FlushedContentsAppend | client.go:191-194 | the events of two runs of sent packets are the events of each, concatenated |
| Client.AddOneTaken | client.go:199-213 | adding one event to the run appends exactly its content to the events taken, sent or pending |
| Client.AddAllTaken | client.go:219-224 | nothing is lost or duplicated: after adding events, the events taken are the earlier ones followed by these, in order |
| Client.AddAllSendsFull | client.go:211-213 | adding never unsends a packet, and every packet sent while adding had reported itself full |
| Client.OversizedEventAccepted | client.go:174-175 | an event that overflows the budget stays in the packet, which is then sent, and a new empty packet starts |
| Client.TickSendsNonEmpty | client.go:214-217 | a tick sends one packet exactly when the packet holds an event, leaves the queue alone and loses no event |
| Client.CancelDrains | client.go:218-228 | cancellation ends the loop with the queue empty and the sent packets holding every event taken plus every queued one, in order |
| Client.DropsReported | client.go:197-207 | a positive drop count is cleared and reported as one "drops" event with that count; otherwise nothing changes |
| Client.StepKeepsTaken | client.go:195-229 | one submit or wake-up keeps the queue within QueueDepth and keeps every event the loop has taken, in order; only a cancellation returns, leaving the queue empty and everything taken before it in the sent packets |
| Client.RunKeepsTaken | client.go:195-231 | over any schedule the queue stays within QueueDepth and the events taken keep their place ahead of later ones; a cancelled loop ends with an empty queue and every event it took in the sent packets |
| Client.SubmitLosesLaterEvents | client.go:253-264 | as written, of two events submitted to an empty queue only the first is queued and the second is not even counted as dropped |
| Client.SubmitEachAccounts | client.go:253-264 | corrected, the queue takes events in order while it has room and every remaining event adds one to the drop count |
| Client.AddAllSnoc | client.go:219-224 | adding a list and then one event is adding the longer list |
| Client.DatagramsSnoc | client.go:233-251 | sending one more packet appends exactly its datagram |
| Client.SentSnoc | client.go:249 | sending a packet extends the bytes sent by exactly its datagram |
| Client.DatagramMagic | client.go:89 | every datagram starts with the magic "EK" |
| Client.OutgoingPacket.constructor | client.go:81-123 | a new packet holds no event and its budget counts the magic and the header message |
| Client.OutgoingPacket.AddEvent | client.go:149-176 | the event goes in with its offset from the start time, the budget grows by its message, the count by one, and it reports full exactly when the budget plus the 24-byte trailer exceeds the limit |
| Client.OutgoingPacket.Finalize | client.go:125-147 | the datagram is "EK" then the compressed stream with a trailer carrying the time since the start |
| Client.UDPClient.constructor | client.go:50-63 | the identity and address as given, a queue depth of 100, a budget of 1000 bytes and a 15-second flush interval |
| Client.UDPClient.Submit | client.go:253-264 | the queue and drop count change as the source's loop does (see SubmitLosesLaterEvents); nothing is sent |
| Client.UDPClient.SubmitAll | client.go:253-264 | the corrected submit: every event is queued or counted (see SubmitEachAccounts); nothing is sent |
| Client.UDPClient.SendAndReset | client.go:191-194 | the packet's datagram is sent and a new empty packet with the same budget replaces it; the queue is untouched |
| Client.UDPClient.Offer | client.go:210-213 | one event added to the packet, sending and replacing it when it reports full |
| Client.UDPClient.OfferAll | client.go:219-224 | the events added in order, with the sent bytes tracking every sent packet |
| Client.UDPClient.CheckDrops | client.go:197-207 | the drops check of the loop, as DropsReported describes it |
| Client.UDPClient.Drain | client.go:218-224 | the queue is emptied into the packet in order, the drop count is kept |
| Client.UDPClient.SendLast | client.go:225-227 | the final packet is sent only when it holds an event |
| Client.UDPClient.Iterate | client.go:196-229 | a ready select case, then, unless it was cancellation, the drops check at the top of the next iteration; done only on cancellation |
| Client.UDPClient.Run | client.go:178-231 | the first loop top checks the drops; then, over any schedule of submits and wake-ups, the queue, drop count and sent datagrams are those of the schedule's run up to cancellation, so a drop counted after the last loop top is never reported |
| Transport.ParsePacket | transport/udp.go:69-93 | fewer than four bytes or no "EK" in front is the missing-magic error; otherwise the result is that of decompressing and decoding the rest |
| Transport.ParsePacketIgnoresTail | transport/udp.go:61 | only the first `n` bytes of the pooled buffer decide the result: stale bytes behind them do not |
| Transport.ParsePacketErrors | transport/udp.go:74-90 | a zlib error is returned as is, a decoding error is an error, and parsing succeeds exactly when both steps do |
| Transport.MergeEventPackets | client.go:157 | decoding the single-event messages of the stream as one message appends the events, in order |
| Transport.MergeMessages | client.go:105-164 | the header, event and trailer messages decode together to the packet the client meant: identity, start time, events and send offset |
| Transport.DatagramContent | client.go:125-147 | a client datagram is "EK" followed by the compressed header, event and trailer messages |
| Transport.ParseDatagram | transport/udp.go:69-93 | what the client sends is what the receiver gets: a client datagram, with any stale bytes behind it, parses to the sent packet |
| Transport.DecompressWhole | transport/udp.go:74-84 | decompressing a compressed stream gives back the data |
| Transport.ParseFramed | transport/udp.go:69-93 | "EK" followed by a zlib stream of an encoded packet parses to that packet |
| Transport.ReceivedOffsets | client.go:154 | each received event's offset is its timestamp minus the packet start, saturated to 64 bits, and exact when it fits |
| Transport.UDPListener.constructor | transport/udp.go:27-35 | the listener's buffer holds 10*1024 bytes |
| Transport.UDPListener.Next | transport/udp.go:47-67 | a read error comes back alone and leaves the buffer; a datagram overwrites the buffer's prefix (cut to its size), comes back with its source, and with the packet or the parse error of those bytes |
| Batching.FlattenSnoc | destination/batch.go:62 | forwarding one more batch appends exactly its events to everything forwarded |
| Batching.AcceptSeen | destination/batch.go:68-71 | receiving an event appends exactly it to what the queue has received, forwarded or buffered |
| Batching.AcceptAllSeen | destination/batch.go:77-82 | nothing is lost or duplicated: the forwarded batches and the buffer hold every accepted event, first in first out |
| Batching.AcceptAllSizes | destination/batch.go:91-96 | from a buffer below the batch size, accepting events keeps the buffer below it, only appends batches of exactly that size, and forwards (buffer + events) / size of them |
| Batching.AcceptSize | destination/batch.go:91-96 | one event keeps the buffer below the batch size, and a batch it forwards has exactly that size |
| Batching.AcceptAllSnoc | destination/batch.go:77-82 | accepting a list and then one event is accepting the longer list |
| Batching.SelectKeeps | destination/batch.go:67-87 | the loop ends exactly on cancellation; receive and tick keep what the queue holds in order; cancellation empties the queue and forwards all of it |
| Batching.TickSeen | destination/batch.go:72-75 | a tick forwards the buffer exactly when it is non-empty, empties it and loses nothing |
| Batching.FinalSendForwardsAll | destination/batch.go:83-85 | after the final submit every received event has been forwarded |
| Batching.TwentyFiveInBatchesOfTen | eventkitd-bigquery/bigquery/batch_test.go:21-34 | 25 events with batch size 10 are forwarded as two batches of 10, with 5 left in the buffer |
| DestinationBatch.OfferAccounts | destination/batch.go:99-108 | Submit queues events in order while there is room and counts every other one in "dropped_events" |
| DestinationBatch.StepAccounts | destination/batch.go:43-108 | one submit or wake-up ends the loop exactly on cancellation, keeps the queue within its size (empty once cancelled), keeps what is held in order, and counts every submitted event as held or dropped |
| DestinationBatch.CancelledTail | destination/batch.go:76-86 | a schedule that does not start with cancellation cancels exactly when its rest does |
| DestinationBatch.RunAccounts | destination/batch.go:43-108 | over any schedule nothing submitted is lost: what was held stays in order, every event submitted before cancellation is held (forwarded once cancelled) or counted, and cancellation empties the queue |
| DestinationBatch.ThresholdOneForwardsEach | destination/batch.go:91-96 | with a batch size of at most 1 each received event is forwarded on its own at once |
| DestinationBatch.BatchQueue.constructor | destination/batch.go:31-40 | the queue size, threshold and interval as given; queue, buffer, forwarded batches and drop counter empty |
| DestinationBatch.BatchQueue.AddEvent | destination/batch.go:91-96 | the event is appended to the buffer and the answer is whether the buffer has reached the threshold |
| DestinationBatch.BatchQueue.SendAndReset | destination/batch.go:56-63 | the whole buffer goes to the target and an empty buffer replaces it |
| DestinationBatch.BatchQueue.Submit | destination/batch.go:99-108 | the state afterwards is Offer's (see OfferAccounts) |
| DestinationBatch.BatchQueue.Drain | destination/batch.go:76-86 | the events queued at cancellation are added in order, then a non-empty buffer goes to the target; the queue is left empty |
| DestinationBatch.BatchQueue.Iterate | destination/batch.go:67-87 | one iteration is the ready select case; done only on cancellation |
| DestinationBatch.BatchQueue.Run | destination/batch.go:43-89 | over any schedule the state is the schedule's run up to cancellation (see RunAccounts) |
| BigQueryBatch.DropsCheckMoves | eventkitd-bigquery/bigquery/batch.go:63-66 | the drops check moves the whole pending count to the "dropped_events" metric and changes nothing else |
| BigQueryBatch.StepAccounts | eventkitd-bigquery/bigquery/batch.go:62-107 | one submit or wake-up ends the loop exactly on cancellation, keeps the queue within its size, keeps what is held in order, counts a submitted event as held, pending or reported, and leaves nothing pending after a wake-up |
| BigQueryBatch.CancelledTail | eventkitd-bigquery/bigquery/batch.go:77-87 | a schedule that does not start with cancellation cancels exactly when its rest does |
| BigQueryBatch.LoopAccounts | eventkitd-bigquery/bigquery/batch.go:62-89 | over any schedule of the loop nothing submitted is lost: held in order, forwarded once cancelled, or counted as dropped |
| BigQueryBatch.RunAccounts | eventkitd-bigquery/bigquery/batch.go:40-107 | the same from the start of Run, whose first drops check loses nothing |
| BigQueryBatch.Submits | eventkitd-bigquery/bigquery/batch_test.go:25-27 | one submit per event, in order |
| BigQueryBatch.Receives | eventkitd-bigquery/bigquery/batch.go:69 | the given number of receive wake-ups |
| BigQueryBatch.SubmitsQueue | eventkitd-bigquery/bigquery/batch.go:100-107 | submitting into a queue with room for all of them queues every event in order |
| BigQueryBatch.ReceivesAccept | eventkitd-bigquery/bigquery/batch.go:69-72 | each receive takes the oldest queued event into the buffer; nothing is dropped |
| BigQueryBatch.SubmitThenReceive | eventkitd-bigquery/bigquery/batch.go:40-107 | events submitted with room for all and then received reach the buffer in order, with no drop |
| BigQueryBatch.TwentyFiveSubmitsTwoBatches | eventkitd-bigquery/bigquery/batch_test.go:21-34 | with room for 1000 events and batches of 10, 25 submitted and received events reach the target as two batches of 10, 5 stay buffered, none dropped |
| BigQueryBatch.LoopAppend | eventkitd-bigquery/bigquery/batch.go:62-89 | a schedule without cancellation runs to its end, so the next one continues from its state |
| BigQueryBatch.BatchQueue.constructor | eventkitd-bigquery/bigquery/batch.go:28-37 | the queue size, threshold and interval as given; everything else empty or zero |
| BigQueryBatch.BatchQueue.AddEvent | eventkitd-bigquery/bigquery/batch.go:92-97 | the event is appended and the answer is whether the buffer has reached the threshold |
| BigQueryBatch.BatchQueue.SendAndReset | eventkitd-bigquery/bigquery/batch.go:53-60 | the whole buffer goes to the target and an empty buffer replaces it |
| BigQueryBatch.BatchQueue.Submit | eventkitd-bigquery/bigquery/batch.go:100-107 | the event is queued when there is room, otherwise the pending drop count grows by one |
| BigQueryBatch.BatchQueue.CheckDrops | eventkitd-bigquery/bigquery/batch.go:63-66 | the state afterwards is the drops check's (see DropsCheckMoves) |
| BigQueryBatch.BatchQueue.Drain | eventkitd-bigquery/bigquery/batch.go:77-87 | the events queued at cancellation are added in order, then a non-empty buffer goes to the target |
| BigQueryBatch.BatchQueue.Iterate | eventkitd-bigquery/bigquery/batch.go:68-88 | one select whose case is ready; done only on cancellation |
| BigQueryBatch.BatchQueue.Run | eventkitd-bigquery/bigquery/batch.go:40-90 | over any schedule the state is the schedule's run up to cancellation (see RunAccounts) |
| Path.EscapeByte | eventkitd/private/path/path.go:12-30 | one byte escapes to one to three characters |
| Path.Escaped | eventkitd/private/path/path.go:11-31 | an escape is never shorter than the string it escapes |
| Path.EscapeByteShape | eventkitd/private/path/path.go:12-30 | an escaped byte uses only safe characters, starts with '-' only for '-', ends with '_' only for '_', and holds no "_-" |
| Path.EscapedChars | eventkitd/private/path/path.go:11-31 | escaped output uses only letters, digits, '+', '_' and '-', and never the path separator |
| Path.EscapedAppend | eventkitd/private/path/path.go:12 | escaping works byte by byte: the escape of a concatenation is the concatenation of the escapes |
| Path.EscapedPrefix | eventkitd/private/path/path.go:12 | the escape of one more byte appends exactly that byte's escape |
| Path.EscapedPrefixAfter | eventkitd/private/path/path.go:12 | the same after whatever the builder already holds |
| Path.EscapeTo | eventkitd/private/path/path.go:11-31 | the builder gains exactly the escape of the value |
| Path.UnescapeStep | eventkitd/private/path/path.go:38-73 | a successful step of Unescape produces one byte and uses up between one character and the rest |
| Path.UnescapedStep | eventkitd/private/path/path.go:36-76 | Unescape of a string is the first step's byte in front of Unescape of the rest |
| Path.Unescape | eventkitd/private/path/path.go:33-77 | the loop's result is the recursive definition's: the bytes, or the error of the first step that fails |
| Path.StepEscapeByte | eventkitd/private/path/path.go:38-73 | the step reading the escape of a byte gives back that byte and uses up exactly its escape |
| Path.UnescapeEscape | eventkitd/private/path/path.go:11-77 | round trip: every byte string is recovered from its escape |
| Path.EscapeInjective | eventkitd/private/path/path.go:11-31 | different strings never escape to the same file name |
| Path.UnescapeLowercases | eventkitd/private/path/path.go:40-44 | a bare upper-case letter unescapes to lower case, so "Ab" reads as "ab" |
| Path.UnescapePlusErrors | eventkitd/private/path/path.go:45-55 | a '+' at the end or before a non-letter is unparsable |
| Path.UnescapeUnderscoreCases | eventkitd/private/path/path.go:56-71 | '_' with fewer than two characters after it is unparsable, with a non-hex pair it is the hex error, and upper-case hex digits decode |
| Path.UnescapeOtherErrors | eventkitd/private/path/path.go:72-73 | any other byte, the separator included, is unparsable |
| Path.EscapedAll | eventkitd/private/path/path.go:83-88 | one escape per scope segment, in order |
| Path.EncodedScopePrefix | eventkitd/private/path/path.go:83-88 | encoding one more segment appends "_-" (except before the first) and its escape |
| Path.EncodeScope | eventkitd/private/path/path.go:81-90 | the builder loop produces the escapes of the segments joined by "_-" |
| Path.JoinAvoids | eventkitd/private/path/path.go:83-88 | joining parts that lack a character the scope separator also lacks gives a string without it |
| Path.EncodedScopeEmpty | eventkitd/private/path/path.go:81-90 | an encoded scope has no separator and no '.', and is empty exactly for no segment or one empty segment |
| Path.Pad | eventkitd/private/path/path.go:79 | padding reaches the width and keeps a string of digits all digits |
| Path.MonthDir | eventkitd/private/path/path.go:79 | the "2006-01" element of the date holds only digits and '-' |
| Path.DayHourDir | eventkitd/private/path/path.go:79 | the "02-15" element is non-empty and holds only digits and '-' |
| Path.Compute | eventkitd/private/path/path.go:92-105 | the built path is the base, the two date elements, the encoded scope, a separator and the escaped name |
| Path.LastSeparator | eventkitd/private/path/path.go:108 | the index of a separator with none after it, or none when the string has no separator |
| Path.TrimTrailing | eventkitd/private/path/path.go:108 | a prefix of the path that does not end in a separator |
| Path.UnescapedAll | eventkitd/private/path/path.go:114-120 | on success one unescaped part per part |
| Path.Parse | eventkitd/private/path/path.go:107-122 | the loop's result is the definition's: the name from the base, the scope from the parent split at "_-", or the first error |
| Path.UnescapedAllStep | eventkitd/private/path/path.go:114-120 | the loop fails at a part that fails and otherwise carries its bytes in front of the rest |
| Path.EscapedNoUnderscoreDash | eventkitd/private/path/path.go:11-31 | a segment without "_-" escapes to one without "_-", starting with '-' exactly when the segment does |
| Path.EscapedNoSepInside | eventkitd/private/path/path.go:83-88 | the escape of such a segment hides no scope separator |
| Path.UnescapedAllEscaped | eventkitd/private/path/path.go:114-120 | unescaping the escaped segments gives the scope back |
| Path.LastSeparatorAt | eventkitd/private/path/path.go:108 | the last separator is at k when none follows it |
| Path.BaseAfter | eventkitd/private/path/path.go:108 | the base of a path ending in a separator and a separator-free name is that name |
| Path.BaseName | eventkitd/private/path/path.go:108 | a non-empty element without a separator is its own base |
| Path.BaseOfJoin | eventkitd/private/path/path.go:112 | the base of a cleaned path, rooted or not, is the last element it keeps |
| Path.KeptAfter | eventkitd/private/path/path.go:112 | filepath.Clean scans elements left to right: one more element is pushed onto those kept so far (dropped if "" or ".", removing the last name if "..") |
| Path.KeptSeparator | eventkitd/private/path/path.go:112 | filepath.Clean drops the empty element a trailing or doubled separator makes |
| Path.DirSplit | eventkitd/private/path/path.go:112 | filepath.Dir is Clean of everything up to and including the last separator |
| Path.BaseCleanLast | eventkitd/private/path/path.go:112 | the base of Clean's result is the last element Clean keeps |
| Path.KeptName | eventkitd/private/path/path.go:112 | after a directory, a name adds exactly itself to the elements Clean keeps |
| Path.BaseDirAfter | eventkitd/private/path/path.go:112 | the parent element Parse reads from head + e + "/" + n is the name e |
| Path.DotSkipped | eventkitd/private/path/path.go:112 | a "." element is cleaned away: the parent element of "x/./n" is "x" |
| Path.KeptDotDot | eventkitd/private/path/path.go:112 | a name followed by ".." adds nothing to the elements Clean keeps |
| Path.DotDotRemoves | eventkitd/private/path/path.go:112 | a ".." element removes the name before it: the parent element of "x/y/../n" is "x" |
| Path.DirAfter | eventkitd/private/path/path.go:112 | the directory of a non-empty path a, a separator and a name is Clean(a) |
| Path.ComputedElements | eventkitd/private/path/path.go:92-112 | a computed path's base is the escaped name and its parent's base the encoded scope |
| Path.ParseCompute | eventkitd/private/path/path.go:92-122 | Parse gives back the name and scope Compute encoded, when the name is non-empty, the scope encodes to a non-empty element and no segment holds "_-" |
| Path.UnescapedPlain | eventkitd/private/path/path.go:40-44 | digits and '-' unescape to themselves |
| Path.ComputedEmptyElements | eventkitd/private/path/path.go:92-112 | with no scope the name's parent element is the day-and-hour directory |
| Path.ParseComputeEmptyScope | eventkitd/private/path/path.go:92-122 | with no scope Parse returns the name and, as scope, the day-and-hour directory |
| Path.UnderscoreDashSplit | eventkitd/private/path/path.go:112-120 | the segment "a_-b" escapes to "a__-b", which Parse splits into parts that do not unescape |
| Path.SplitUnderscoreDash | eventkitd/private/path/path.go:112 | "a__-b" splits at its "_-" into "a_" and "b" |
| Path.TrailingUnderscore | eventkitd/private/path/path.go:62-63 | a lone trailing '_' is unparsable |
| Path.ParseComputeUnderscoreDash | eventkitd/private/path/path.go:92-122 | a path computed for the segment "a_-b" fails to parse as unparsable |
| LegacyPath.EscapeByte | eventkitd/path.go:10-26 | one byte escapes to one to three characters |
| LegacyPath.Escaped | eventkitd/path.go:9-28 | an escape is never shorter than the string it escapes |
| LegacyPath.EscapedAppend | eventkitd/path.go:10 | the escape of a concatenation is the concatenation of the escapes |
| LegacyPath.EscapedPrefixAfter | eventkitd/path.go:10 | escaping one more byte appends exactly its escape to the builder |
| LegacyPath.EscapeTo | eventkitd/path.go:9-28 | the builder gains exactly the escape of the value |
| LegacyPath.EscapedChars | eventkitd/path.go:9-28 | escaped output uses only letters, digits, '_' and '-', and never the path separator |
| LegacyPath.DecodeStep | eventkitd/path.go:10-26 | a successful step of a reference decoder produces one byte and uses up between one character and the rest |
| LegacyPath.StepEscapeByte | eventkitd/path.go:10-26 | the decoder reads the escape of a byte back as that byte, using up exactly the escape |
| LegacyPath.DecodeEscape | eventkitd/path.go:9-28 | every byte string is read back from its escape |
| LegacyPath.EscapeInjective | eventkitd/path.go:9-28 | different strings never escape to the same file name |
| LegacyPath.CaseKept | eventkitd/path.go:14-15 | upper-case letters are kept as they are, so "Ab" and "ab" name different files, where the newer escape writes "+Ab" |
| LegacyPath.EscapedAll | eventkitd/path.go:34-39 | one escape per scope segment, in order |
| LegacyPath.EncodedScopePrefix | eventkitd/path.go:34-39 | encoding one more segment appends "_-" (except before the first) and its escape |
| LegacyPath.EncodedScopeAfter | eventkitd/path.go:34-39 | the same after whatever the builder already holds |
| LegacyPath.WriteScope | eventkitd/path.go:34-39 | the builder gains the escaped segments joined by "_-" |
| LegacyPath.ComputePath | eventkitd/path.go:30-43 | the built path is the base, "YYYY-MM/DD-HH/", the encoded scope, '/' and the escaped name |
| LegacyPath.Count | eventkitd/path.go:33 | the number of occurrences of a character is at most the length |
| LegacyPath.CountAppend | eventkitd/path.go:33 | occurrences in a concatenation add up |
| LegacyPath.CountAbsent | eventkitd/path.go:33 | a character that does not occur is counted zero times |
| LegacyPath.JoinNoSeparator | eventkitd/path.go:34-39 | joining parts without a separator gives a string without one |
| LegacyPath.DateDirsSeparators | eventkitd/path.go:33 | the date part holds exactly two separators |
| LegacyPath.SeparatorsAfterBase | eventkitd/path.go:30-43 | whatever the scope and name, the path after the base holds exactly three separators: every file sits three directories below the base |
| Delimited.Records | eventkitd/private/delimited/reader.go:31-41 | a frame sequence always carries at least one record, the one after its last delimiter |
| Delimited.AfterRecord | eventkitd/private/delimited/reader.go:32-34 | what follows the first delimiter is a strictly shorter suffix, well sized when the input is |
| Delimited.DropEmpty | eventkitd/private/delimited/reader.go:73-75 | skipping empty data frames leaves a well-sized suffix that does not start with one |
| Delimited.Chunks | eventkitd/private/delimited/writer.go:58-66 | the frames Flush cuts are never longer than 65535 bytes |
| Delimited.FullFrames | eventkitd/private/delimited/writer.go:32-37 | the frames Write's loop cuts are never longer than 65535 bytes |
| Delimited.Leftover | eventkitd/private/delimited/writer.go:32 | Write leaves fewer than 65535 bytes buffered |
| Delimited.AfterFlushFrame | eventkitd/private/delimited/writer.go:41-56 | flushFrame takes up to 65535 bytes off the buffer, even when a base write fails |
| Delimited.Writer.constructor | eventkitd/private/delimited/writer.go:24-28 | a writer over the given base with an empty buffer |
| Delimited.Writer.Write | eventkitd/private/delimited/writer.go:30-39 | the whole of `p` is reported written, and the new state and error are Write's (see DrainFullEmits) |
| Delimited.Writer.FlushFrame | eventkitd/private/delimited/writer.go:41-56 | the new state and error are flushFrame's (see FlushFrameEmits) |
| Delimited.Writer.Flush | eventkitd/private/delimited/writer.go:58-66 | the new state and error are Flush's (see FlushEmits) |
| Delimited.Writer.Delimit | eventkitd/private/delimited/writer.go:68-77 | the new state and error are Delimit's (see DelimitEmits) |
| Delimited.AfterReadFrame | eventkitd/private/delimited/reader.go:43-77 | readFrame consumes input (strictly, unless it fails) and never stops on an empty data frame without an error |
| Delimited.SkipRecord | eventkitd/private/delimited/reader.go:32-34 | Next's loop stops on a delimiter unless an error stops it, and does nothing once an error is set |
| Delimited.AfterNext | eventkitd/private/delimited/reader.go:31-41 | Next succeeds only without an earlier error and leaves a loaded frame, consuming input when it succeeds without an error |
| Delimited.AfterRead | eventkitd/private/delimited/reader.go:87-100 | Read returns bytes exactly when there is no error and a data frame is loaded, namely the first min(n, remaining) payload bytes; otherwise it returns nothing and changes nothing |
| Delimited.Visible | eventkitd/private/delimited/reader.go:79-85 | Err reports nothing exactly for no error or io.EOF |
| Delimited.Reader.constructor | eventkitd/private/delimited/reader.go:21-29 | a new reader is positioned as if a delimiter had just been read |
| Delimited.Reader.Next | eventkitd/private/delimited/reader.go:31-41 | the new state and answer are Next's (see AfterNext) |
| Delimited.Reader.ReadFrame | eventkitd/private/delimited/reader.go:43-77 | the new state is readFrame's (see AfterReadFrame) |
| Delimited.Reader.Read | eventkitd/private/delimited/reader.go:87-100 | the new state, bytes and error are Read's (see AfterRead) |
| Delimited.Reader.Err | eventkitd/private/delimited/reader.go:79-85 | the error Err reports is Visible's |
| Delimited.ReadRecord | eventkitd/private/delimited/delimited_test.go:62 | io.ReadAll over one record keeps the reader loaded, consumes input and fails only after an earlier error |
| Delimited.WellSizedAppend | eventkitd/private/delimited/writer.go:10 | two sequences of frames within the size limit stay within it together |
| Delimited.SerializeAppend | eventkitd/private/delimited/writer.go:47-55 | the bytes of two frame sequences are the bytes of each, concatenated |
| Delimited.Glue | eventkitd/private/delimited/reader.go:31-41 | two record lists joined at the seam have one record fewer than both |
| Delimited.GlueDelimit | eventkitd/private/delimited/reader.go:31-41 | a leading empty record survives the join |
| Delimited.GlueData | eventkitd/private/delimited/reader.go:87-100 | data in front of the first record stays in front after the join |
| Delimited.RecordsAppend | eventkitd/private/delimited/reader.go:31-41 | the records of two frame sequences are their record lists with the last of the first joined to the first of the second |
| Delimited.ChunksRecords | eventkitd/private/delimited/writer.go:58-66 | the frames Flush cuts carry the buffered bytes as one record |
| Delimited.FullFramesRecords | eventkitd/private/delimited/writer.go:30-39 | the full frames Write emits plus the frames of what it keeps carry the written bytes as one record |
| Delimited.RecordsDropEmpty | eventkitd/private/delimited/reader.go:73-75 | empty data frames carry nothing: dropping them changes neither the records nor what follows the first delimiter |
| Delimited.RecordsSplit | eventkitd/private/delimited/reader.go:31-41 | the records are the first record, then the records after the first delimiter; with no delimiter there is one record |
| Delimited.HeaderDecodes | eventkitd/private/delimited/writer.go:49 | the big-endian size field of a data frame's header reads back as its size |
| Delimited.DelimitHeader | eventkitd/private/delimited/writer.go:73-75 | the delimiter frame is the three bytes 1, 0, 0 |
| Delimited.SerializeCons | eventkitd/private/delimited/writer.go:47-55 | the bytes of a frame sequence start with the bytes of its first frame |
| Delimited.ChunksFirst | eventkitd/private/delimited/writer.go:42-55 | Flush's first frame is a header and up to 65535 bytes, and the rest follows |
| Delimited.FullFramesFirst | eventkitd/private/delimited/writer.go:32-37 | Write's first full frame is a header and 65535 bytes, and the rest follows |
| Delimited.FlushFrameEmits | eventkitd/private/delimited/writer.go:41-56 | flushFrame fails exactly when the base has no room for the frame, and otherwise writes its header and payload |
| Delimited.FlushStep | eventkitd/private/delimited/writer.go:58-66 | one successful flushFrame of Flush writes the first frame and Flush goes on from there |
| Delimited.FlushEmits | eventkitd/private/delimited/writer.go:58-66 | a successful Flush writes exactly the frames of the buffer and empties it |
| Delimited.FlushFits | eventkitd/private/delimited/writer.go:58-66 | Flush reports no error when the base has room for the frames of the buffer |
| Delimited.DrainStep | eventkitd/private/delimited/writer.go:32-37 | one successful flushFrame of Write's loop writes the first full frame and the loop goes on from there |
| Delimited.DrainFullEmits | eventkitd/private/delimited/writer.go:30-39 | a successful Write emits exactly the full frames and keeps the rest, fewer than 65535 bytes, buffered |
| Delimited.DrainFullFits | eventkitd/private/delimited/writer.go:30-39 | Write reports no error when the base has room for the full frames |
| Delimited.DelimitEmits | eventkitd/private/delimited/writer.go:68-77 | a successful Delimit writes the frames of the buffer and then the delimiter frame, and empties the buffer |
| Delimited.DelimitFits | eventkitd/private/delimited/writer.go:68-77 | Delimit reports no error when the base has room for both |
| Delimited.Expected | eventkitd/private/delimited/delimited_test.go:87-130 | the records a caller means, at least one: the bytes written between two Delimit calls |
| Delimited.ExpectedSnoc | eventkitd/private/delimited/delimited_test.go:87-130 | one more operation extends the meant records by its effect |
| Delimited.Extend | eventkitd/private/delimited/writer.go:30-77 | a write extends the last record, a delimit starts a new one, a flush changes nothing |
| Delimited.OpFrames | eventkitd/private/delimited/writer.go:30-77 | the frames one operation emits are within the size limit |
| Delimited.SessionFrames | eventkitd/private/delimited/writer.go:30-77 | the frames a session emits are within the size limit |
| Delimited.ApplyEmits | eventkitd/private/delimited/writer.go:30-77 | a successful operation appends exactly its frames to the base and leaves its leftover buffered |
| Delimited.SessionEmits | eventkitd/private/delimited/writer.go:30-77 | a session without error has written exactly the serialized session frames |
| Delimited.OpRecords | eventkitd/private/delimited/writer.go:30-77 | what one operation emits, with what it keeps, carries the buffer plus the written bytes, the buffer, or the buffer and a new empty record |
| Delimited.GlueWrite | eventkitd/private/delimited/writer.go:30-39 | a write's bytes join the last record |
| Delimited.GlueDelimitEnd | eventkitd/private/delimited/writer.go:68-77 | a delimit ends with a new empty record |
| Delimited.StepRecords | eventkitd/private/delimited/writer.go:30-77 | one operation extends the records of what was emitted and buffered exactly as the caller means |
| Delimited.SessionRecords | eventkitd/private/delimited/writer.go:30-77 | the session's frames and what is still buffered carry exactly the records the caller wrote |
| Delimited.ReadDelimitFrame | eventkitd/private/delimited/reader.go:53-62 | readFrame on a delimiter frame consumes its header and stops on it |
| Delimited.ReadDataFrame | eventkitd/private/delimited/reader.go:55-75 | readFrame on a data frame loads a non-empty payload and reads on past an empty one |
| Delimited.ReadFrameSerialized | eventkitd/private/delimited/reader.go:43-77 | on serialized frames readFrame skips empty data frames and stops on the next delimiter or payload, or at the end with io.EOF |
| Delimited.ReadRecordInFrame | eventkitd/private/delimited/delimited_test.go:62 | a read inside a frame returns k bytes and the record goes on with the rest |
| Delimited.ReadRecordLastOfFrame | eventkitd/private/delimited/reader.go:94-98 | the read that uses up a frame returns its bytes and loads the next frame |
| Delimited.ReadRecordAtEnd | eventkitd/private/delimited/reader.go:91-93 | at a delimiter or at the end of input the record is over and empty |
| Delimited.ReadRecordSerialized | eventkitd/private/delimited/reader.go:87-100 | reading a record to its end from inside a data frame gives the rest of the frame and the rest of the record, and stops at its delimiter or the end |
| Delimited.ReadRecordAfterFrame | eventkitd/private/delimited/reader.go:87-100 | reading on from the end of a data frame gives the rest of the record |
| Delimited.ReadAllAtEof | eventkitd/private/delimited/delimited_test.go:59-73 | after the end of input the loop is over and Err reports nothing |
| Delimited.ReadAllStep | eventkitd/private/delimited/delimited_test.go:59-73 | one turn at a delimiter: Next loads a frame, the record is read, and the loop goes on |
| Delimited.ReadAllSerialized | eventkitd/private/delimited/delimited_test.go:59-73 | from just past a delimiter the read loop returns exactly the records of serialized frames, the empty last one included, and no error |
| Delimited.ReadAllRecord | eventkitd/private/delimited/delimited_test.go:59-73 | from a loaded data frame the loop returns this record and then the records after its delimiter |
| Delimited.WriteThenRead | eventkitd/private/delimited/delimited_test.go:24-37 | what is written is what is read: after a session ending with Flush and no error, reading the output gives exactly the records written between delimits |
| Delimited.EdgesRecords3 | eventkitd/private/delimited/delimited_test.go:96-104 | the first three operations of the edge test mean an empty record and three samples |
| Delimited.EdgesRecords6 | eventkitd/private/delimited/delimited_test.go:96-108 | the first six operations mean empty, three samples, one sample |
| Delimited.EdgesRecords9 | eventkitd/private/delimited/delimited_test.go:96-113 | the first nine operations add an empty record and a sample |
| Delimited.EdgesRecords | eventkitd/private/delimited/delimited_test.go:96-130 | the whole edge session means the seven records the test expects |
| Delimited.EdgesTest | eventkitd/private/delimited/delimited_test.go:87-130 | leading, repeated and trailing delimiters read back as empty records and several writes as one record, whatever the sample |
| Delimited.UnknownControlReported | eventkitd/private/delimited/reader.go:57-58 | corrected, an unknown control byte stops readFrame with an error that Err reports |
| Delimited.TruncatedPayload | eventkitd/private/delimited/reader.go:65-70 | input ending inside a payload is io.ErrUnexpectedEOF, which Err reports |
| Delimited.UnknownControlMasked | eventkitd/private/delimited/reader.go:52-76 | as written, the unknown control byte 2 right after a data frame, then the end of input, leaves io.EOF: Err reports nothing and Next ends; corrected, the error is kept |
| LegacyDelimited.AfterUnframe | eventkitd/utils/delimited/reader.go:50-68 | unframe consumes input (strictly, unless it fails), only ever sets an error, and never leaves a delimiter with payload left |
| LegacyDelimited.AfterRead | eventkitd/utils/delimited/reader.go:24-48 | Read consumes input and returns bytes only without an error and off a delimiter; an error comes with no bytes; a failed earlier state stays failed |
| LegacyDelimited.AfterAdvance | eventkitd/utils/delimited/reader.go:79-83 | Advance moves past a delimiter the reader sits on, consuming input when it succeeds |
| LegacyDelimited.Reader.constructor | eventkitd/utils/delimited/reader.go:16-22 | a new reader has already read the first frame header |
| LegacyDelimited.Reader.Unframe | eventkitd/utils/delimited/reader.go:50-68 | the new state is unframe's (see AfterUnframe) |
| LegacyDelimited.Reader.Read | eventkitd/utils/delimited/reader.go:24-48 | the new state, bytes and error are Read's (see AfterRead) |
| LegacyDelimited.Reader.Delimited | eventkitd/utils/delimited/reader.go:73-75 | true exactly without an error and on a delimiter |
| LegacyDelimited.Reader.Advance | eventkitd/utils/delimited/reader.go:79-83 | the new state is Advance's (see AfterAdvance) |
| LegacyDelimited.ReadRecord | eventkitd/utils/delimited/delimited_test.go:56 | io.ReadAll over one record consumes input and fails only after an earlier error |
| LegacyDelimited.UnframeDelimit | eventkitd/utils/delimited/reader.go:62-64 | unframe on a delimiter frame sits on it with nothing remaining |
| LegacyDelimited.UnframeData | eventkitd/utils/delimited/reader.go:59-61 | unframe on a data frame sets the remaining count to the frame's size, with the payload next |
| LegacyDelimited.ReadRecordUnframes | eventkitd/utils/delimited/reader.go:46 | with the current frame used up a read starts with the next frame header |
| LegacyDelimited.ReadRecordInPayload | eventkitd/utils/delimited/reader.go:32-45 | one read inside a payload returns up to k bytes of it and lowers the count by as many |
| LegacyDelimited.ReadRecordSerialized | eventkitd/utils/delimited/reader.go:24-48 | reading a record from inside a data frame gives that payload and the rest of the record, and stops on its delimiter or the end |
| LegacyDelimited.ReadRecordNextFrame | eventkitd/utils/delimited/reader.go:24-68 | the rest of a record read from a frame boundary |
| LegacyDelimited.ReadAllSerialized | eventkitd/utils/delimited/delimited_test.go:53-66 | from a frame boundary the readAll loop returns exactly the records of serialized frames, and no error |
| LegacyDelimited.ReadAllRecord | eventkitd/utils/delimited/delimited_test.go:53-66 | from the start of a payload the loop returns this record and then the records after its delimiter |
| LegacyDelimited.WriteThenRead | eventkitd/utils/delimited/delimited_test.go:53-66 | what the newer writer writes this reader reads: after a session ending with Flush and no error, exactly the records written |
| LegacyDelimited.EdgesTest | eventkitd/utils/delimited/delimited_test.go:75-116 | the edge session of the package's tests reads back as the seven records the test expects |
| LegacyDelimited.UnknownControlReported | eventkitd/utils/delimited/reader.go:65-66 | an unknown control byte is an error that every later Read returns |
| LegacyDelimited.TruncatedPayload | eventkitd/utils/delimited/reader.go:36-43 | input ending inside a payload makes Read fail with io.ErrUnexpectedEOF |
| Protostream.Frame | eventkitd/private/protostream/writer.go:31-37 | a frame is a 4-byte header then the data, and the header reads back as the data's length when it fits 32 bits |
| Protostream.AfterMarshal | eventkitd/private/protostream/writer.go:23-39 | Marshal succeeds exactly when marshalling does, the data is at most 4 MiB and the base has room, and then appends exactly the frame; a marshal error or an oversized message writes nothing; a failed base write leaves at most the header |
| Protostream.Writer.constructor | eventkitd/private/protostream/writer.go:17-21 | a writer over the given base |
| Protostream.Writer.Marshal | eventkitd/private/protostream/writer.go:23-39 | the base's bytes and the error are Marshal's (see AfterMarshal) |
| Protostream.ReadMessage | eventkitd/private/protostream/reader.go:21-37 | Unmarshal consumes a prefix of the input; fewer than four bytes is io.EOF (none) or io.ErrUnexpectedEOF; a header over 4 MiB is refused; a success consumes at least the header |
| Protostream.Reader.constructor | eventkitd/private/protostream/reader.go:15-19 | a reader over the given base |
| Protostream.Reader.Unmarshal | eventkitd/private/protostream/reader.go:21-37 | the bytes left and the result are ReadMessage's |
| Protostream.ReadFrame | eventkitd/private/protostream/reader.go:21-37 | a frame within the cap reads back as its payload's decoding, consuming exactly the frame |
| Protostream.OversizedFrameRefused | eventkitd/private/protostream/reader.go:27-30 | a header announcing more than 4 MiB is refused after the header, whatever follows |
| Protostream.WriteThenRead | eventkitd/private/protostream/protostream_test.go:16-30 | a message the writer accepted reads back from the bytes it wrote |
| Protostream.WriteEach | eventkitd/private/protostream/writer.go:23-39 | a run of writes only ever appends to the base |
| Protostream.WriteEachStep | eventkitd/private/protostream/writer.go:23-39 | after a successful first write the run continues from the frame it wrote |
| Protostream.ReadStreamStep | eventkitd/private/protostream/reader.go:21-37 | a frame of a message that round-trips heads the stream read back |
| Protostream.WriteThenReadStream | eventkitd/private/protostream/reader.go:21-37 | whatever a run of writes wrote without an error reads back, frame after frame, as the same messages, ending with io.EOF |
| Protostream.MarshalEvent | eventkitd/private/protostream/writer.go:24 | marshalling an event never fails |
| Protostream.UnmarshalEvent | eventkitd/private/protostream/reader.go:36 | decoding an event succeeds exactly when the bytes decode as one |
| Protostream.EventRoundTrips | eventkitd/private/protostream/protostream_test.go:22-29 | every event whose fields fit round-trips through the event codec |
| Protostream.EventWriteThenRead | eventkitd/private/protostream/protostream_test.go:21-29 | an event written to an empty stream reads back unchanged |
| Protostream.BasicTest | eventkitd/private/protostream/protostream_test.go:16-30 | an event named "test event" is written and read back with that name |
| LegacyProtostream.Writer.constructor | eventkitd/utils/protostream/writer.go:18-22 | a writer over the given base with an empty buffer |
| LegacyProtostream.Writer.Marshal | eventkitd/utils/protostream/writer.go:24-42 | the base's bytes and the error are the newer writer's, and the buffer is reset to exactly this message's bytes |
| LegacyProtostream.ReadMessage | eventkitd/utils/protostream/reader.go:20-32 | Unmarshal consumes a prefix of the input; fewer than four bytes is io.EOF or io.ErrUnexpectedEOF; a body shorter than announced fails; a success consumes at least the header |
| LegacyProtostream.Reader.constructor | eventkitd/utils/protostream/reader.go:14-18 | a reader over the given base |
| LegacyProtostream.Reader.Unmarshal | eventkitd/utils/protostream/reader.go:20-32 | the bytes left and the result are ReadMessage's |
| LegacyProtostream.ReadFrame | eventkitd/utils/protostream/reader.go:20-32 | any frame whose length fits the 32-bit header reads back as its payload's decoding: there is no size cap |
| LegacyProtostream.OversizedFrameRead | eventkitd/utils/protostream/reader.go:26 | a frame over 4 MiB is read here and refused by the newer reader |
| LegacyProtostream.WriteThenRead | eventkitd/utils/protostream/protostream_test.go:16-28 | what this writer writes this reader reads back |
| LegacyProtostream.BasicTest | eventkitd/utils/protostream/protostream_test.go:16-28 | an event named "test event" written by this writer reads back with that name |
| IO.FullRead | eventkitd/private/protostream/reader.go:23 | io.ReadFull splits the input; it succeeds exactly with n bytes available, fails with io.EOF exactly on empty input (for n > 0) and otherwise with io.ErrUnexpectedEOF |
| IO.PartialRead | eventkitd/utils/delimited/reader.go:36 | one Read splits the input, returns min(n, available) bytes, and fails with io.EOF exactly on empty input |
| IO.Appended | eventkitd/private/protostream/writer.go:33-38 | a write is appended exactly when it fits the base's limit, and refused whole otherwise |
| IO.Source.constructor | eventkitd/private/protostream/reader.go:15-19 | a source holding the given bytes |
| IO.Source.ReadFull | eventkitd/private/protostream/reader.go:23 | the bytes, the rest and the error are FullRead's |
| IO.Source.Read | eventkitd/utils/delimited/reader.go:36 | the bytes, the rest and the error are PartialRead's |
| IO.Sink.constructor | eventkitd/private/protostream/writer.go:17-21 | an empty sink with the given limit |
| IO.Sink.Write | eventkitd/private/protostream/writer.go:33-38 | the bytes and the error are Appended's |
| PbUtils.AsTimestamp | pb/utils.go:10-15 | the nanoseconds lie in [0, 1s) and the seconds are the whole seconds at or below the instant |
| PbUtils.AsTimeAsTimestamp | pb/utils.go:10-19 | converting an instant to a Timestamp and back gives the same instant |
| PbUtils.AsTimestampAsTime | pb/utils.go:10-19 | a Timestamp with nanoseconds in range converts to a representable instant and back to itself |
| PbUtils.ValueString | pb/utils.go:25-47 | an unset value renders as ""; a string renders as itself; bytes render as lower-case hex that decodes back to them; it panics exactly for the variant the switch does not list |
| PbUtils.KVStringShape | pb/utils.go:21-23 | a tag renders as its key, then '=', then its value rendering |
| PbUtils.KVStrings | pb/utils.go:49-53 | when no tag panics there is one rendering per tag |
| PbUtils.KVStringsPanic | pb/utils.go:25-53 | rendering a tag list panics if and only if some tag holds the unlisted variant |
| PbUtils.TagsStringEmpty | pb/utils.go:49-55 | an event without tags renders as the empty string |
| PbUtils.TagsStringSplit | pb/utils.go:49-55 | when no rendering contains a space, splitting TagsString on spaces gives back each tag's rendering in order |
| Pb.EventRoundTrip | client.go:149-160 | every event whose encoding fits in memory decodes back to itself |
| Pb.TagRoundTrip | client.go:155-157 | every tag whose encoding fits decodes back to itself |
| Pb.MergeSecondsNanos | client.go:109 | merging with an all-zero message on either side gives the other message |
| Pb.SecondsNanosMerge | client.go:109 | decoding a seconds/nanoseconds message on top of another gives their field-wise merge |
| Pb.MergeEmpty | transport/udp.go:86-90 | the empty packet is a left and right unit of the merge |
| Pb.PacketFold | transport/udp.go:86-90 | decoding the fields of a packet on top of another packet gives the merge of the two |
| Pb.UnmarshalMarshal | transport/udp.go:86-90 | every packet whose encoding fits in memory decodes back to itself |
| Pb.MergeAllAppend | transport/udp.go:86-90 | merging a list of packets in two halves gives the same packet as merging them all at once |
| Pb.UnmarshalConcatenation | client.go:105-164 | the marshalled packets written one after another in a stream decode to their merge, which is how the header, event and trailer packets of one datagram combine |
| Zlib.AdlerSums | client.go:138-141 | both running sums of the Adler-32 checksum stay below the modulus |
| Zlib.BlockHeader | transport/udp.go:81-84 | an accepted block header leaves room for the stored bytes it announces |
| Zlib.InflateBlocks | transport/udp.go:81-84 | a decoded block chain never claims more bytes than the input has |
| Zlib.HeaderAccepted | transport/udp.go:74-77 | the stream header the writer emits passes the reader's header check |
| Zlib.BlockHeaderOf | transport/udp.go:81-84 | the header of a stored block reads back as its final flag and length |
| Zlib.InflateStoredBlock | transport/udp.go:81-84 | a final stored block inflates to its chunk; a non-final one inflates to its chunk followed by the rest of the chain |
| Zlib.InflateStoredBlocks | transport/udp.go:81-84 | the block chain written for some data inflates back to that data, whatever follows it |
| Zlib.InflateChained | transport/udp.go:81-84 | a non-final block placed in front of a chain prefixes its chunk to the chain's data |
| Zlib.DecompressCompress | transport/udp.go:74-84 | decompressing a compressed stream gives back the data, whatever bytes follow the stream |
| Zlib.DecompressFrame | transport/udp.go:74-84 | a valid header, a block chain and a matching Adler-32 trailer decompress to the chain's data |
| Zlib.DecompressOf | transport/udp.go:74-84 | when the header check, the block chain and the checksum all pass, decompression yields the chain's data |
| Clock.AddSub | eventkitd-bigquery/bigquery/sink.go:30-34 | adding the difference of two instants back to the earlier gives the later one, whenever the difference fits a Duration |
| Clock.SubOrder | client.go:154 | Sub is negative, zero or positive exactly as the first instant is before, at or after the second, and exact unless it saturates |
| Clock.NegNeg | eventkitd-bigquery/bigquery/sink.go:30 | negating a Duration twice gives it back; negation is exact except at the smallest value |
| Text.ToBytes | pb/utils.go:33 | the bytes of a string, one per character, with the same values |
| Text.FromBytes | pb/utils.go:33 | the string of some bytes, one character per byte, with the same values |
| Text.BytesRoundTrip | pb/utils.go:33 | string to bytes and back is the identity in both directions |
| Text.HexDigit | pb/utils.go:41 | the digit of a nibble is a decimal digit or a lower-case letter a-f |
| Text.HexDigitValue | pb/utils.go:41 | reading back the digit of a nibble gives the nibble |
| Text.HexEncode | pb/utils.go:41 | the hex text of some bytes has two characters per byte |
| Text.HexDecode | pb/utils.go:41 | decoded hex has half as many bytes as the text has characters |
| Text.HexRoundTrip | pb/utils.go:41 | hex decoding inverts hex encoding |
| Text.Digits | pb/utils.go:35 | the decimal digits of a number: at least one, all digits, no leading zero |
| Text.DigitsRoundTrip | pb/utils.go:35 | reading back the decimal digits of a number gives the number |
| Text.Itoa | pb/utils.go:35 | the decimal rendering of an integer is never empty |
| Text.ItoaAtoi | bigquery/config.go:75 | parsing the decimal rendering of any int64 gives the int64 back |
| Text.NegativeItoaAtoi | bigquery/config.go:75 | parsing the rendering of a negative int64 gives it back |
| Text.IndexOf | bigquery/config.go:32 | the index found holds the character and no earlier index does; when none is found the character does not occur |
| Text.Cut | bigquery/config.go:32 | the cut succeeds exactly when the separator occurs; the two halves and the separator rebuild the input, and the first half does not contain the separator |
| Text.JoinSnoc | pb/utils.go:54 | joining one more part appends the separator and the part |
| Text.Split | bigquery/config.go:25 | splitting always yields at least one piece |
| Text.SplitStep | bigquery/config.go:25 | text without the separator, followed by the separator and a rest, splits into that text and the pieces of the rest |
| Text.SplitNoSep | bigquery/config.go:25 | text without the separator splits into itself alone |
| Text.SplitJoin | bigquery/config.go:25 | splitting a join gives back the parts when no part contains the separator |
| Text.LeadingSpaceRune | bigquery/config.go:28 | the length read at the start is that of a white-space rune (ASCII, U+0085, U+00A0 or one of the three-byte spaces), and a zero length means no rune of one to three bytes at the start is white space |
| Text.TrailingSpaceRune | bigquery/config.go:28 | the same at the end of the string |
| Text.TrimLeftTrimmed | bigquery/config.go:28 | trimming on the left gives a suffix of the input that starts with no white-space rune |
| Text.TrimRightTrimmed | bigquery/config.go:28 | trimming on the right gives a prefix of the input that ends with no white-space rune |
| Text.LeadingSpacePrefix | bigquery/config.go:28 | cutting the end off a string that starts with no white space keeps it so |
| Text.TrimSpaceTrimmed | bigquery/config.go:28 | the trimmed layer neither starts nor ends with a white-space rune |
| Text.TrimSpaceKeeps | bigquery/config.go:28 | a string whose first and last bytes are ASCII and not white space is its own trim |
| Text.LessIrreflexive | eventkitd/utils/events-to-csv/main.go:104 | no string sorts before itself |
| Text.LessTotal | eventkitd/utils/events-to-csv/main.go:104 | of two different strings one sorts before the other |
| Text.LessTransitive | eventkitd/utils/events-to-csv/main.go:104 | the string order is transitive |
| Text.LessAsymmetric | eventkitd/utils/events-to-csv/main.go:104 | two strings never sort before each other |
| Text.Builder.constructor | eventkitd/private/path/path.go:82 | a new builder holds the empty string |
| Text.Builder.WriteString | eventkitd/private/path/path.go:11-31 | writing appends the string to what the builder holds |
| Binary.LittleEndian | transport/udp.go:86-90 | the little-endian form has exactly the requested width |
| Binary.LittleEndianRoundTrip | transport/udp.go:86-90 | reading back the little-endian form of a value that fits gives the value |
| Binary.BigEndian | transport/udp.go:81-84 | the big-endian form has exactly the requested width |
| Binary.BigEndianRoundTrip | transport/udp.go:81-84 | reading back the big-endian form of a value that fits gives the value |
| Binary.FromBigEndianRoundTrip | transport/udp.go:81-84 | every byte string is the big-endian form of its own value, so the form is unique |
| Binary.WrapInt64 | client.go:261 | int64 wrap-around leaves every value in the int64 range unchanged |
| Binary.WrapInt64Congruent | client.go:261 | the wrapped value differs from the integer by a multiple of 2^64 |
| Binary.WrapInt64Add | client.go:198 | adding after wrapping wraps to the same value as wrapping the exact sum, so repeated counter updates may wrap at any point |
| ProtoWire.EncodeVarint | client.go:105-113 | a varint has at least one byte |
| ProtoWire.RawVarint | transport/udp.go:86-90 | a varint read consumes at least one byte and no more than the input has |
| ProtoWire.DecodeVarint | transport/udp.go:86-90 | a bounded varint read consumes between one and ten bytes of the input |
| ProtoWire.RawVarintOfEncoding | transport/udp.go:86-90 | reading a varint back from its encoding gives the number and the encoding's length |
| ProtoWire.VarintLengthBound | client.go:105-113 | a number below 128^k encodes in at most k bytes |
| ProtoWire.VarintRoundTrip | transport/udp.go:86-90 | every 64-bit number encodes in at most ten bytes and the bounded reader decodes it back, whatever follows |
| ProtoWire.DecodePayload | transport/udp.go:86-90 | a decoded payload has the wire type asked for and fits in the input |
| ProtoWire.DecodeField | transport/udp.go:86-90 | a decoded field consumes at least one byte and no more than the input has |
| ProtoWire.PayloadRoundTrip | transport/udp.go:86-90 | every payload decodes back from its encoding with its length, whatever follows |
| ProtoWire.Fixed64RoundTrip | transport/udp.go:86-90 | eight little-endian bytes decode as the 64-bit fixed value |
| ProtoWire.Fixed32RoundTrip | transport/udp.go:86-90 | four little-endian bytes decode as the 32-bit fixed value |
| ProtoWire.BytesPayloadRoundTrip | transport/udp.go:86-90 | a length-prefixed byte string decodes back to itself |
| ProtoWire.FieldRoundTrip | transport/udp.go:86-90 | every valid field decodes back from its encoding with its length, whatever follows |
| ProtoWire.EncodeFieldsAppend | client.go:105-164 | encoding two field lists one after another is encoding their concatenation |
| ProtoWire.FieldsRoundTrip | transport/udp.go:86-90 | a list of valid fields decodes back from its encoding |
| ProtoWire.FromInt64 | client.go:154 | an int64 stored as its two's-complement bit pattern reads back as itself |
| ProtoWire.Int32RoundTrip | transport/udp.go:86-90 | an int32 widened to a varint reads back as itself |
| Counting.TallySnoc | tools/eventkit-receiver/repo.go:29-35 | counting one more key is one more `m[k]++` on the tally so far |
| Counting.TotalRemove | tools/eventkit-receiver/repo.go:29-35 | the sum of a map's counts is any one count plus the sum of the rest |
| Pb.TagValueRoundTrip | client.go:155-157 | decoding the field of any tag value into a tag without a value sets exactly that value |
| Pb.EventStep | client.go:157 | decoding one event field appends that event to the packet's events |
| Pb.TagStep | client.go:155-157 | decoding one tag field appends that tag to the event's tags |
| Pb.EventListFold | transport/udp.go:86-90 | decoding the fields of a list of events appends the events in order |
| Pb.TagListFold | transport/udp.go:86-90 | decoding the fields of a list of tags appends the tags in order |
| Pb.FitsAllValid | client.go:105-113 | every field of a list whose encoding fits in memory can be encoded on its own |
| BqNaming.Alnums | bigquery/schema.go:351-361 | keeping only letters and digits never lengthens a string |
| BqNaming.AlnumsAppend | bigquery/schema.go:351-361 | the letters and digits of a concatenation are those of each part, in order |
| BqNaming.DropUnsafe | bigquery/client.go:21 | dropping a leading run of unsafe characters leaves a suffix that is empty or starts with a letter or digit, with the same letters and digits |
| BqNaming.ReplaceUnsafeShape | bigquery/schema.go:354-356 | replacing every run of characters outside [a-zA-Z0-9] by '_' leaves only letters, digits and '_', and keeps every letter and digit in order |
| BqNaming.ReplaceUnsafePlain | bigquery/schema.go:354-356 | a segment made only of letters and digits is left as it is |
| BqNaming.DropUnderscores | bigquery/schema.go:358-359 | dropping leading '_' leaves a suffix that does not start with '_', with the same letters and digits and the same character rules |
| BqNaming.Collapse | bigquery/schema.go:358 | collapsing runs of '_' keeps a non-empty string non-empty and keeps whether it starts with '_' |
| BqNaming.CollapseAlnums | bigquery/schema.go:358 | collapsing runs of '_' keeps every letter and digit, in order |
| BqNaming.CollapseShape | bigquery/schema.go:358 | after collapsing, a string of letters, digits and '_' has no two '_' in a row |
| BqNaming.TrimLeftUnderscores | bigquery/schema.go:359 | trimming '_' on the left gives a suffix that does not start with '_', with the same letters and digits |
| BqNaming.TrimRightUnderscores | bigquery/schema.go:359 | trimming '_' on the right gives a prefix that does not end with '_', with the same letters and digits |
| BqNaming.TrimUnderscores | bigquery/schema.go:359 | trimming '_' on both sides keeps every letter and digit |
| BqNaming.Infix | bigquery/schema.go:358-359 | a piece of a string keeps the string's character rules and its lack of double '_' |
| BqNaming.TrimShape | bigquery/schema.go:358-359 | trimming a collapsed name leaves no '_' at either end and no double '_' |
| BqNaming.Segments | bigquery/schema.go:352-356 | one sanitised segment per scope element and one for the name, in order |
| BqNaming.JoinTableChars | bigquery/schema.go:358 | joining segments of letters, digits and '_' with '_' keeps those character rules |
| BqNaming.TableNameShape | bigquery/schema.go:351-361 | a table name is made of letters, digits and single '_' separators, never at either end |
| BqNaming.AlnumsJoin | bigquery/schema.go:358 | joining lists whose parts agree on letters and digits gives strings that agree on letters and digits |
| BqNaming.TableNameKeepsAlnums | bigquery/schema.go:351-361 | no letter or digit is lost or added: they appear in the order of the scope and then the name |
| BqNaming.CollapsePlain | bigquery/schema.go:358 | a string of letters and digits has nothing to collapse |
| BqNaming.PlainTableName | eventkitd-bigquery/bigquery/client.go:184-195 | an event with no scope whose name is letters and digits is stored in the table of that name |
| BqNaming.ColumnChar | bigquery/schema.go:365-366 | a column character is never '/' or '-' |
| BqNaming.TagFieldName | bigquery/schema.go:363-368 | a tag's column is "tag_" followed by one character per key character, with no '/' or '-' |
| BqNaming.TagFieldNameCollides | bigquery/schema.go:363-368 | keys that differ only in '/', '-' and '_' share a column |
| BqNaming.TagColumnNotFixed | bigquery/record.go:76-109 | no tag column has the name of a fixed column, so tags never overwrite the fixed values of a row |
| BqNaming.IsTagMissingIff | bigquery/schema.go:370-381 | a tag lacks a column if and only if some tag's column is not in the schema; never for an empty tag list |
| BqNaming.NewColumns | bigquery/schema.go:62-93 | the tag loop appends at most one column per tag |
| BqNaming.NewColumnsSnoc | bigquery/schema.go:62-93 | one more tag appends only that tag's columns after the others, because membership is tested against the original schema |
| BqNaming.FindColumn | bigquery/schema.go:64-68 | the inner loop finds a column exactly when the schema has a column of that name |
| BqNaming.AppendMissing | bigquery/schema.go:60-93 | the tag loop's schema is the original followed by the columns the tags lack |
| BqNaming.NewColumnsMissing | bigquery/schema.go:62-93 | every appended column is missing from the original schema and is named and typed after some tag |
| BqNaming.NewColumnsComplete | bigquery/schema.go:62-93 | every tag whose column is missing and whose variant has a column type gets its column |
| BqNaming.NewColumnsNone | bigquery/schema.go:56-58 | when no tag lacks a column nothing is appended |
| BqNaming.RepeatedKeyAppendedTwice | bigquery/schema.go:62-93 | a missing key given twice in one call gets two columns, because the loop checks the original schema only |
| BqRecord.FillTags | bigquery/record.go:87-106 | the tag loop's row is the starting row with one assignment per tag of a known variant, in tag order |
| BqRecord.WithTagsKeys | bigquery/record.go:87-106 | a column is present after the tag loop exactly when it was before or some tag of a known variant names it |
| BqRecord.WithTagsKeeps | bigquery/record.go:87-106 | a column no tag names keeps its value |
| BqRecord.WithTagsLastWins | bigquery/record.go:87-106 | a tag column holds the value of the last tag of a known variant that names it |
| BqRecord.SaveCell | bigquery/record.go:90-105 | a tag gets a cell exactly when its variant has a column type |
| BqRecord.SaveCellNoTimestamp | cmd/eventkitd-sink-bigquery/main.go:61-74 | the command sink's switch gives the same cell as the library's, except that it gives none for a Timestamp tag |
| BqRecord.FixedRow | bigquery/record.go:77-86 | the fixed part of a row has exactly the seven fixed columns |
| BqRecord.Save | bigquery/record.go:76-109 | Save returns the row built by the tag loop, an empty insert id and no error |
| BqRecord.RowFixed | bigquery/record.go:76-109 | the fixed columns of a row hold the record's own values, whatever its tags |
| BqRecord.RowColumns | bigquery/record.go:76-109 | a row's columns are the seven fixed ones and one per tag of a known variant |
| BqRecord.TimestampTagDropped | cmd/eventkitd-sink-bigquery/main.go:46-78 | a record whose only tag is a timestamp gets just the fixed columns from the command sink, but a timestamp column from the library |
| BqRecord.JsonCell | bigquery/record.go:54-69 | a tag gets a JSON value exactly when its variant has a column type |
| BqRecord.FixedDocument | bigquery/record.go:39-48 | the fixed part of a document has exactly the seven fixed keys |
| BqRecord.ToJSON | bigquery/record.go:37-73 | the document is returned exactly when it can be marshalled (it holds no NaN or infinite float), and it is the fixed keys overwritten by the tag loop |
| BqRecord.NoFloatsMarshal | bigquery/record.go:37-73 | a record without float tags always marshals |
| BqRecord.NoFloatsStep | bigquery/record.go:51-70 | without float tags the tag loop puts no float into a document that had none |
| BqRecord.NaNOverwritten | bigquery/record.go:51-72 | a NaN tag makes the document fail, but a later tag with the same key replaces it and the document marshals |
| BqSchema.MessageFields | bigquery/schema.go:124-152 | the message keeps at most one field per column, and only typed ones |
| BqSchema.ToMessageDescriptor | bigquery/schema.go:118-177 | the descriptor is built exactly when the kept fields form a valid message, and then it is those fields |
| BqSchema.MessageFieldsNumbered | bigquery/schema.go:124-152 | every kept field carries the name and type of the column its number points at |
| BqSchema.MessageFieldsComplete | bigquery/schema.go:124-152 | every typed column has its field in the message |
| BqSchema.NumberingGap | bigquery/schema.go:128-148 | a skipped untyped column leaves its field number unused, so numbers can have gaps |
| BqSchema.DescriptorFields | bigquery/schema.go:255-277 | PBDescriptor has one field per column, untyped columns included |
| BqSchema.MessageFieldsAreTypedFields | bigquery/schema.go:118-279 | the message descriptor is PBDescriptor without its untyped fields |
| BqSchema.ByName | bigquery/schema.go:190-218 | a field found by name is in the descriptor and has that name; none is found only when no field has it |
| BqSchema.ByNameAt | bigquery/schema.go:190-218 | lookup by name finds the first field of that name |
| BqSchema.MicrosTruncate | bigquery/schema.go:204-209 | microseconds truncate toward zero: an instant just before the epoch is microsecond 0, not -1 |
| BqSchema.SetAllApplied | bigquery/schema.go:190-214 | when every assignment names a field of its value's type, none panics and all are made |
| BqSchema.DefaultDescriptor | bigquery/schema.go:303-331 | the created table's seven columns become seven fields numbered 1 to 7 |
| BqSchema.DefaultFieldsValid | bigquery/schema.go:303-331 | the seven default fields have valid, distinct names, so their message descriptor is always built |
| BqSchema.DefaultRecordToPB | bigquery/schema.go:180-246 | with the default descriptor a record without tags converts, its times in microseconds and its correction in nanoseconds |
| BqSchema.DefaultSetAll | bigquery/schema.go:190-214 | every fixed value names a default column of its own type, so none of the seven assignments panics |
| BqSchema.DefaultByName | bigquery/schema.go:190-214 | each fixed assignment finds a default field of the value's kind |
| BqSchema.AppliedFixed | bigquery/schema.go:190-214 | the fixed assignments give the message of the record's seven values |
| BqSchema.MistypedTagPanics | bigquery/schema.go:216-229 | a tag whose value does not have the type of its column makes the conversion panic |
| BqSchema.TagsPanicStays | bigquery/schema.go:216-239 | once the tag loop panics, more tags do not change the outcome |
| BqSchema.LoadTableMetadata | bigquery/schema.go:282-348 | an existing table's metadata is returned unchanged; a missing one is created with the seven default columns and returned; an unreachable one is an error and nothing changes |
| BqSchema.Schema.constructor | bigquery/schema.go:36-39 | a schema holds its table name, metadata and descriptor |
| BqSchema.Schema.UpdateIfRequired | bigquery/schema.go:53-115 | nothing changes when no tag lacks a column or no column can be added; otherwise the table is updated with the original schema plus the new columns, and the descriptor is rebuilt, or an error leaves both as they were |
| BqSchema.Schema.RecordToPB | bigquery/schema.go:180-246 | the conversion fails without a descriptor; otherwise it sets the fixed fields and one field per known tag that has a column |
| BqSchema.Schema.PBDescriptor | bigquery/schema.go:249-279 | the descriptor lists every column of the current schema, numbered by position |
| BqSchema.NewSchema | bigquery/schema.go:35-51 | the schema is built exactly when the table is reachable and the typed columns of its metadata (the stored one, or the seven default columns of a table just created) form a valid message; a missing reachable table always succeeds; the schema is new, names the table, holds its metadata and the descriptor built from it |
| BqRemote.RowsInAppend | bigquery/client.go:215-233 | the rows a table holds after two runs of appends are its rows from the first run followed by those from the second |
| BqRemote.RowsInAppendOne | bigquery/client.go:215-233 | one more append adds its batch to its own table's rows and to no other table's |
| BqRemote.Dataset.constructor | bigquery/client.go:34-55 | a new dataset holds the given tables and failing tables, no rows and no calls |
| BqRemote.Dataset.Metadata | bigquery/client.go:102-105 | a metadata lookup fails for an unavailable table, finds a stored table, and answers 404 for a missing one; nothing is changed |
| BqRemote.Dataset.Create | bigquery/client.go:106-152 | creating a table fails for an unavailable or existing table, and otherwise stores it with the given schema |
| BqRemote.Dataset.Update | bigquery/client.go:304-309 | an update succeeds exactly when the table is available, stored, has the same etag and the new schema is typed; the table then holds the new schema and the next etag |
| BqRemote.FriendlyNameMissesTable | bigquery/client.go:304-317 | for a table with an empty friendly name, an update addressed by that name is refused while the same update addressed by the table ID is accepted |
| BqRemote.Dataset.Put | bigquery/client.go:230-233 | an insertAll call succeeds exactly when the table is available to it and exists, and then appends the batch as one write |
| BqRemote.Dataset.NewManagedStream | bigquery/client.go:75-82 | opening a stream succeeds exactly when the Storage Write API accepts the table |
| BqRemote.Dataset.AppendRows | bigquery/client.go:254-263 | a stream append succeeds exactly when the stream, the table and the service all accept it, and then appends the batch as one streamed write |
| BqClient.ChunkEnd | bigquery/client.go:207-213 | a chunk is non-empty, holds at most 500 records, and every chunk but the last holds exactly 500 |
| BqClient.BatchesAppend | bigquery/client.go:207-234 | the records of two runs of appends are those of the first run followed by those of the second |
| BqClient.ChunkPlanStep | bigquery/client.go:207-234 | one round of the chunk loop: the chunk goes to the stream while the stream works, else to insertAll, and a refused insertAll ends the loop |
| BqClient.ChunkPlanCovers | bigquery/client.go:207-234 | when the chunk loop succeeds, its appends hold the table's records exactly once, in order |
| BqClient.ChunkPlanFailurePrefix | bigquery/client.go:207-234 | when the chunk loop fails, its appends hold a proper prefix of the records made of whole chunks |
| BqClient.FailureChunks | bigquery/client.go:207-234 | the number of whole chunks stored before a failure |
| BqClient.ChunkPlanSizes | bigquery/client.go:207-213 | every append of the chunk loop is to the table and holds between 1 and 500 records |
| BqClient.ChunkPlanFallbackSticks | bigquery/client.go:215-227 | once a chunk falls back to insertAll, every later chunk of that table does too |
| BqClient.ChunkPlanAllStreamed | bigquery/client.go:215-227 | when the stream can be opened and every record marshals, the loop cannot fail and every chunk is streamed |
| BqClient.NoEventsNoWrites | bigquery/client.go:186-234 | a table with no records makes no append and, once loaded, cannot fail |
| BqClient.TablePlanCovers | bigquery/client.go:186-234 | a table that succeeds has its records appended exactly once, in order |
| BqClient.RecordsPlanStep | bigquery/client.go:186-235 | the tables from the k-th on: this table's plan, and the rest only when it succeeded |
| BqClient.TablePlanOneTable | bigquery/client.go:186-234 | every append made for a table is to that table |
| BqClient.RowsInOneTable | bigquery/client.go:186-234 | appends all made to one table store their records in that table and nowhere else |
| BqClient.RecordsPlanOtherRows | bigquery/client.go:185-237 | SaveRecord stores nothing in a table it was not given |
| BqClient.RecordsPlanOwnRows | bigquery/client.go:185-237 | a successful SaveRecord stores each table's records exactly once, in order |
| BqClient.HeadNotInTail | bigquery/client.go:186 | the first table of an iteration order does not come again |
| BqClient.RecordsPlanRows | bigquery/client.go:185-237 | after earlier appends, a table SaveRecord was not given keeps its rows, and on success each given table gains exactly its records |
| BqClient.DefaultTyped | bigquery/client.go:119-148 | every column of the created table's schema has a type |
| BqClient.NewColumnsTyped | bigquery/client.go:268-303 | columns added for missing tags always carry a type, so the extended schema is typed exactly when the original was |
| BqClient.NewColumnsOnlyTyped | bigquery/client.go:284-301 | the tag switch only adds columns of a known type |
| BqClient.BigQueryClient.constructor | bigquery/client.go:34-55 | over any dataset, whatever its tables' friendly names, a new client has empty metadata and stream caches |
| BqClient.BigQueryClient.GetOrCreateManagedStream | bigquery/client.go:62-88 | a cached stream is returned without a remote call; otherwise one stream is opened and cached on success |
| BqClient.BigQueryClient.CreateOrLoadTableScheme | bigquery/client.go:90-166 | cached metadata is returned without a remote call; otherwise the table is looked up, created with the seven default columns on a 404, and cached; a failing lookup is an error and leaves the cache as it was |
| BqClient.BigQueryClient.ConvertRecordsToJSON | bigquery/client.go:169-183 | the conversion succeeds exactly when every record marshals, and then gives one document per record, in order |
| BqClient.BigQueryClient.SaveBatchWithManagedWriter | bigquery/client.go:240-266 | the stream is opened (or reused) and the batch appended as one streamed write exactly when the stream opens, every record marshals and the table accepts it |
| BqClient.BigQueryClient.BigqueryUpdate | bigquery/client.go:268-321 | as written: the update goes to the table whose ID is metadata.name, the friendly name; it succeeds exactly when that table is available, stored, has the etag and the schema is typed, and then that table gets the extended schema and the next etag, and the cache entry and stream eviction are keyed by that name |
| BqClient.BigQueryClient.UpdateTable | bigquery/client.go:268-321 | corrected: the same update addressed by the table ID: it succeeds exactly when that table is available, has the etag and the extended schema is typed; then the table keeps its friendly name and gets the extended schema and next etag, the cache entry under the ID is replaced and its stream evicted |
| BqClient.BigQueryClient.SaveChunk | bigquery/client.go:213-233 | one chunk goes to the stream while the stream works, else to insertAll; it fails only when both refuse |
| BqClient.BigQueryClient.SaveChunks | bigquery/client.go:203-234 | the chunk loop makes exactly the appends of ChunkPlan and fails exactly when the plan does |
| BqClient.BigQueryClient.SaveTable | bigquery/client.go:187-234 | one table makes exactly the appends of TablePlan and fails exactly when it does; other tables' caches are unchanged |
| BqClient.BigQueryClient.SaveTables | bigquery/client.go:186-236 | the table loop makes exactly the appends of RecordsPlan and fails exactly when it does |
| BqClient.BigQueryClient.SaveRecord | bigquery/client.go:185-237 | SaveRecord makes exactly the appends of RecordsPlan; on success every table gains exactly its records, in order, and tables it was not given keep their rows |
| BqClient.BigQueryClient.Close | bigquery/client.go:337-359 | every cached stream is closed and removed; the metadata cache stays |
| Grouping.Appended | eventkitd-bigquery/bigquery/sink.go:38 | appending under a key adds that key to the map and no other |
| Grouping.GroupedSelect | bigquery/destination.go:57-78 | a key is in the grouping exactly when some pair has it, and its list is the values of those pairs, in arrival order |
| Grouping.SelectCount | bigquery/destination.go:57-78 | a key's list has one value per pair with that key |
| Grouping.SelectFrom | bigquery/destination.go:57-78 | every value in a key's list came from a pair with that key |
| Grouping.GroupedSnoc | bigquery/destination.go:66-78 | grouping one more pair is one more append under its key |
| InsertSink.ExtendedTypedIff | eventkitd-bigquery/bigquery/client.go:140-182 | the extended schema has a type for every column exactly when the original does and no missing tag got an untyped column |
| InsertSink.UnknownVariantRefused | eventkitd-bigquery/bigquery/client.go:112-182 | a first record with a missing tag of a variant the switch does not list gets an untyped column, the update is refused and the table fails |
| InsertSink.LegacyTimestampRefused | cmd/eventkitd-sink-bigquery/main.go:229-269 | in the oldest receiver a missing Timestamp tag fails the table, while the newer receivers store it exactly when nothing else stops them |
| InsertSink.InsertPlanShape | eventkitd-bigquery/bigquery/client.go:114-136 | a table is written whole in one insertAll call, or not at all exactly when it fails |
| InsertSink.SinkPlanWrites | eventkitd-bigquery/bigquery/client.go:112-138 | SaveRecord stores a prefix of the tables in iteration order, each whole; it fails exactly when it stops short, and then at a table whose own plan fails |
| InsertSink.RowsInSingle | eventkitd-bigquery/bigquery/client.go:132 | one insertAll call stores its records in its own table and nowhere else |
| InsertSink.SinkPlanOtherRows | eventkitd-bigquery/bigquery/client.go:112-138 | SaveRecord stores nothing in a table it was not given |
| InsertSink.SinkPlanOwnRows | eventkitd-bigquery/bigquery/client.go:112-138 | a successful SaveRecord stores each table's records exactly once, in order |
| InsertSink.SinkPlanRows | eventkitd-bigquery/bigquery/client.go:112-138 | after earlier appends, tables SaveRecord was not given keep their rows, and on success each given table gains exactly its records |
| InsertSink.LookupFailurePanics | cmd/eventkitd-sink-bigquery/main.go:178-226 | in the oldest receiver a failed lookup of an uncached table (other than 404) dereferences the nil metadata, where the corrected lookup reports an error |
| InsertSink.LoadedMetaFails | eventkitd-bigquery/bigquery/client.go:38-110 | the corrected lookup fails exactly for an uncached table whose lookup fails, and agrees with the as-written one whenever that one returns |
| InsertSink.InsertClient.constructor | eventkitd-bigquery/bigquery/client.go:25-36 | over any dataset, whatever its tables' friendly names, a new client has an empty metadata cache |
| InsertSink.InsertClient.CreateOrLoadTableScheme | eventkitd-bigquery/bigquery/client.go:38-110 | cached metadata is returned without a remote call; otherwise the table is looked up, created with the seven default columns on a 404, and cached; a failing lookup is an error and leaves the cache as it was |
| InsertSink.InsertClient.CreateOrLoadAsWritten | cmd/eventkitd-sink-bigquery/main.go:171-227 | the oldest receiver's lookup returns what LoadedAsWritten says: the corrected result, or a crash when the lookup fails; a cache hit makes no remote call and changes no table, nothing is ever appended, and no other table changes |
| InsertSink.InsertClient.UpdateFields | eventkitd-bigquery/bigquery/client.go:140-182 | as written: the update goes to the table whose ID is metadata.name, the friendly name; it succeeds exactly when that table is available, stored, has the etag and the extended schema is typed, and then that table and the cache entry under that name hold the extended schema |
| InsertSink.InsertClient.UpdateTable | eventkitd-bigquery/bigquery/client.go:140-182 | corrected: the same update addressed by the table ID: it succeeds exactly when that table is available, has the etag and the extended schema is typed; then the table and the cache entry under the ID hold the extended schema |
| InsertSink.InsertClient.PrepareTable | eventkitd-bigquery/bigquery/client.go:115-130 | a table is prepared exactly when it loads and any schema update the first record needs is accepted |
| InsertSink.InsertClient.SaveTable | eventkitd-bigquery/bigquery/client.go:114-136 | one table makes exactly the appends of InsertPlan and fails exactly when it does; other tables' caches are unchanged |
| InsertSink.InsertClient.SaveRecord | eventkitd-bigquery/bigquery/client.go:112-138 | SaveRecord makes exactly the appends of SinkPlan and fails exactly when it does |
| Sink.Keyed | eventkitd-bigquery/bigquery/sink.go:32-52 | one keyed record per event of the packet |
| Sink.BuildRecords | eventkitd-bigquery/bigquery/sink.go:29-52 | the building loop gives the records map PacketRecords describes, or the nil dereference panic |
| Sink.PacketRecordsPanics | eventkitd-bigquery/bigquery/sink.go:30-52 | building records crashes exactly when the packet has an event but no start timestamp; a packet without events gives an empty map |
| Sink.PacketRecordsGroups | eventkitd-bigquery/bigquery/sink.go:32-52 | a table has a list exactly when some event maps to it, and the list holds that table's events' records in event order |
| Sink.PacketRecordsCount | eventkitd-bigquery/bigquery/sink.go:32-52 | a table's list holds one record per event of that table |
| Sink.KeyedTables | eventkitd-bigquery/bigquery/sink.go:36 | the keyed records of a table are exactly those of the events whose table name it is |
| Sink.PacketRecordsUniform | eventkitd-bigquery/bigquery/sink.go:30-52 | every record carries the packet's application, instance, source and reception instant and the one shared correction, and the time and tags of an event of its table |
| Sink.RecordSource | eventkitd-bigquery/bigquery/sink.go:32-52 | every grouped record is the record of some event of its table |
| Sink.CorrectionIsSkew | eventkitd-bigquery/bigquery/sink.go:30-34 | without saturation an event's stored time is its time on the sender's clock plus the correction, and the correction is zero exactly when the packet arrived one send offset after its start |
| Sink.SmallestOffsetWraps | eventkitd-bigquery/bigquery/sink.go:30 | the most negative send offset negates to itself, so the corrected start lies before the reception instant instead of after it |
| Sink.ReceivePacket | eventkitd-bigquery/main.go:90-143 | Receive crashes exactly when building the records does, and then stores nothing; otherwise it makes exactly the appends of SinkPlan, each table of the packet gains exactly its records when no error is returned, and no other table changes |
| Sink.BigQuerySink.constructor | eventkitd-bigquery/bigquery/sink.go:16-25 | a new sink has a client with an empty cache and a zero sent_to_bq counter |
| Sink.BigQuerySink.Receive | eventkitd-bigquery/bigquery/sink.go:28-57 | as ReceivePacket, and the sent_to_bq counter grows by the number of events whether or not the save fails |
| BqDestination.Keyed | bigquery/destination.go:58-83 | one keyed record per submitted event |
| BqDestination.BuildRecords | bigquery/destination.go:57-83 | the building loop gives the grouping of the events' records by table name |
| BqDestination.SubmitRecordsGroups | bigquery/destination.go:57-83 | a table has a list exactly when a submitted event maps to it, and the list holds that table's records in submission order |
| BqDestination.SubmitRecordsFields | bigquery/destination.go:70-82 | every stored record is one of the submitted events of its table, with the event's timestamp and tags, the clock reading taken for it, the application name, version "0.0.1", the host as instance, address "0.0.0.0" and no correction |
| BqDestination.SubmitRecordsCount | bigquery/destination.go:57-83 | a table's list holds one record per submitted event of that table |
| BqDestination.KeyedTables | bigquery/destination.go:66 | the keyed records of a table are exactly those of the events whose table name it is |
| BqDestination.BigQueryDestination.constructor | bigquery/destination.go:31-46 | a new destination has a fresh client with empty caches, the host name as instance (empty when it cannot be read), is open and has printed nothing |
| BqDestination.BigQueryDestination.Submit | bigquery/destination.go:49-89 | once closed nothing happens; otherwise the records make exactly the appends of RecordsPlan, a failure is printed once, on success every table gains exactly its records, and other tables never change |
| BqDestination.BigQueryDestination.Run | bigquery/destination.go:91-97 | after the context ends the destination is closed for good and every stream of the client is closed |
| SinkDestination.SingleTablePlan | eventkitd-bigquery/bigquery/destination.go:47-64 | saving a one-table map is that table's own plan |
| SinkDestination.BigQueryDestination.constructor | eventkitd-bigquery/bigquery/destination.go:22-37 | a new destination has a fresh insertAll client with an empty cache, the host name as instance (empty when it cannot be read) and has printed nothing |
| SinkDestination.BigQueryDestination.Submit | eventkitd-bigquery/bigquery/destination.go:39-68 | the event's record is saved under the event's bare name; on success that table's rows grow by exactly this record, a failure is printed once, and no other table changes |

## Left out

- Protobuf marshalling is a codec for the subset of the wire format the messages use. The .proto schema file is not part of this model, so the field numbers follow each message's declaration order.
- zlib compression emits and accepts only stored deflate blocks. Compression levels and Huffman-coded blocks are not modelled; the decompressor refuses the latter.
- The BigQuery service (Metadata, Create, Update, Put, managed streams) is foreign code. It is the simulated `BqRemote.Dataset`, which keeps the behaviour the writers rely on.
- Network I/O is not modelled:
  - client.go's send is recorded as appending the datagram's bytes to a list;
  - a send error is ignored, as the source ignores it;
  - ListenUDP address resolution and listen errors are not modelled.
- Concurrency is modelled as sequential schedules of happenings:
  - goroutines, mutexes and channel selects;
  - the jittered ticker, whose wake-ups are given as ticks;
  - the parallel destination's fan-out.
- The following are parameters:
  - clock readings (time.Now), the host name and connection set-up;
  - the client constructor of the configuration parser and time.ParseDuration;
  - Go's map iteration order.
- time.Sleep is not modelled, including the ten-second wait after a schema update in bigquery/schema.go.
- Renderings Go delegates to fmt, time and net are parameters of the model (`PbUtils.Formats` and the like):
  - float, Duration and Time formatting;
  - RFC 3339 output;
  - `%s` of a tag value.
- encoding/json output of the Storage Write API path: only whether a document marshals is modelled (NaN and infinities do not).
- UTF-8 decoding of strings in the query-language cursor and in Prometheus sanitising is not modelled. Both take their input as runes.
- The failed saves that `BqDestination.BigQueryDestination.Submit` and `SinkDestination.BigQueryDestination.Submit` print are kept in those classes' `warnings` lists. No other print is modelled.
- BqClient.BigQueryClient.SaveChunk: the WARNING that bigquery/client.go:222 prints when the managed writer fails is not kept. The fall-back to insertAll is modelled.
- BqSchema.Schema.PBDescriptor: the "Warning: unknown field type" that bigquery/schema.go:274 prints for an untyped column is not kept. The field itself is modelled, with no type.
- Prometheus: the HTTP handler PrometheusMetrics and the monkit registry transformers are not modelled. A registry is known only by its identity.
- The receiver's counter.go wall-clock reporting is not modelled.
- The terminal browser's widgets, rendering and key handling are not modelled. The list widget is reduced to its selected index.
- Top.DoSort: sorts by insertion, because sort.Slice's algorithm is not modelled. The contract is the one sort.Slice promises: ordered by the less function, and a permutation.
- EventsToCsv.Insert: models sort.Strings by insertion into a sorted list.
- events-to-csv:
  - walking directories, opening files and decoding record streams are inputs;
  - pb.Record's definition is not part of this model, so a stored record carries the fields main.go reads;
  - encoding/csv quoting is not modelled, so a written line is its list of cells.
- The writer of eventkitd/utils/delimited is not part of this model. The older reader is stated against the writer of eventkitd/private/delimited, which writes the same format.
- bigquery/destination.go:85 calls `SaveRecord(records)` without a context, and :96 calls `close()`; bigquery/client.go defines only `SaveRecord(ctx, records)` and `Close()`. The model reads the calls as those two methods.
- The comments of bigquery/config.go name the keys runners and flashSize, but the code reads workers and batchSize. The model follows the code, so the commented examples do not parse (`BqConfig.AddressIsNoDestination`).
- Uel.Parser.Restore: requires 0 <= pos <= |source|, the positions a checkpoint can hold. Go would also accept a larger position, reading -1 as the rune, and panics on a negative one.
- Eventkit.Scope.Event: the panic for a non-string key does not carry the key's dynamic type name.
- A sender's QueueSend is outside this model. The registry records its calls in a list.
- The empty-scope and `_-` behaviour of Path.Parse follows the code:
  - an empty scope parses to the date-hour directory name (`Path.ParseComputeEmptyScope`), because filepath.Clean drops the empty element between the doubled separators;
  - a segment holding "_-" escapes to "__-", which the joiner splits, so the path does not parse back (`Path.ParseComputeUnderscoreDash`);
  - the round trip is stated for a non-empty name, because filepath.Base of a path ending in the separator drops the empty name.
- Client.UDPClient.Run: a schedule's submits take the corrected submit of the first Findings row (every event queued or counted as dropped). The code as written, which stops after the first queued event, is `Client.UDPClient.Submit` and `Client.SubmitAsWritten`, and `Client.SubmitLosesLaterEvents` states what it loses.
- Client.Step: the same; its submit happening is the corrected submit.
- Delimited.AfterReadFrame: states the corrected readFrame of the second Findings row, which stops at a header with an unknown control byte. The loop as written, which reads on past it, is `Delimited.AfterReadFrameAsWritten`, and `Delimited.UnknownControlMasked` states the error it hides.
- Delimited.AfterNext: built on the corrected readFrame (see Delimited.AfterReadFrame), so it differs from the code as written only on input that holds a header with an unknown control byte after a data frame.
- Delimited.AfterRead: built on the corrected readFrame (see Delimited.AfterReadFrame), so it differs from the code as written only on input that holds a header with an unknown control byte after a data frame.
- Delimited.Reader.Next: built on the corrected readFrame (see Delimited.AfterReadFrame), so it differs from the code as written only on input that holds a header with an unknown control byte after a data frame.
- Delimited.Reader.ReadFrame: built on the corrected readFrame (see Delimited.AfterReadFrame), so it differs from the code as written only on input that holds a header with an unknown control byte after a data frame.
- Delimited.Reader.Read: built on the corrected readFrame (see Delimited.AfterReadFrame), so it differs from the code as written only on input that holds a header with an unknown control byte after a data frame.
- Delimited.ReadRecord: built on the corrected readFrame (see Delimited.AfterReadFrame), so it differs from the code as written only on input that holds a header with an unknown control byte after a data frame.
- Delimited.ReadAllStep: built on the corrected readFrame (see Delimited.AfterReadFrame), so it differs from the code as written only on input that holds a header with an unknown control byte after a data frame.
- Delimited.ReadAllSerialized: built on the corrected readFrame (see Delimited.AfterReadFrame), so it differs from the code as written only on input that holds a header with an unknown control byte after a data frame.
- Delimited.ReadAllRecord: built on the corrected readFrame (see Delimited.AfterReadFrame), so it differs from the code as written only on input that holds a header with an unknown control byte after a data frame.
- DestinationBatch.BatchQueue.constructor: requires a queue size of at least 0. Go's make(chan) panics on a negative size; `BqConfig.Build` models that panic (`BqConfig.NegativeQueuePanics`).
- BigQueryBatch.BatchQueue.constructor: requires a queue size of at least 0, for the same reason.
- DestinationBatch.OfferAccounts: With a queue size of 0 every submitted event is counted as dropped. Go's make(chan, 0) is unbuffered, so its select hands the event over when the Run loop is waiting in its own select at that moment. The schedule model treats a submit and a loop wake-up as separate happenings, so that handover is not modelled. A size of 0 is reachable (a batch layer without queueSize).
- DestinationBatch.BatchQueue.Submit: With a queue size of 0 every submitted event is counted as dropped. Go's make(chan, 0) is unbuffered, so its select hands the event over when the Run loop is waiting in its own select at that moment. The schedule model treats a submit and a loop wake-up as separate happenings, so that handover is not modelled. A size of 0 is reachable (a batch layer without queueSize).
- BigQueryBatch.BatchQueue.Submit: With a queue size of 0 every submitted event is counted as dropped. Go's make(chan, 0) is unbuffered, so its select hands the event over when the Run loop is waiting in its own select at that moment. The schedule model treats a submit and a loop wake-up as separate happenings, so that handover is not modelled. A size of 0 is reachable (a queue size of 0 passed to NewBatchQueue).
- Client.SubmitEachAccounts: With a queue size of 0 every submitted event is counted as dropped. Go's make(chan, 0) is unbuffered, so its select hands the event over when the Run loop is waiting in its own select at that moment. The schedule model treats a submit and a loop wake-up as separate happenings, so that handover is not modelled. A size of 0 is reachable (QueueDepth is an exported field a caller may set to 0).
- Client.UDPClient.Submit: With a queue size of 0 every submitted event is counted as dropped. Go's make(chan, 0) is unbuffered, so its select hands the event over when the Run loop is waiting in its own select at that moment. The schedule model treats a submit and a loop wake-up as separate happenings, so that handover is not modelled. A size of 0 is reachable (QueueDepth is an exported field a caller may set to 0).
- Client.UDPClient.SubmitAll: With a queue size of 0 every submitted event is counted as dropped. Go's make(chan, 0) is unbuffered, so its select hands the event over when the Run loop is waiting in its own select at that moment. The schedule model treats a submit and a loop wake-up as separate happenings, so that handover is not modelled. A size of 0 is reachable (QueueDepth is an exported field a caller may set to 0).
- BqClient.BigQueryClient.SaveTable: schema updates use the corrected update by table ID (the Findings rows on bigquery/client.go:304-317 and eventkitd-bigquery/bigquery/client.go:174-180). For a table whose friendly name is not its ID, Go's update goes to another table or none and fails, where this member succeeds.
- BqClient.BigQueryClient.SaveTables: schema updates use the corrected update by table ID (the Findings rows on bigquery/client.go:304-317 and eventkitd-bigquery/bigquery/client.go:174-180). For a table whose friendly name is not its ID, Go's update goes to another table or none and fails, where this member succeeds.
- BqClient.BigQueryClient.SaveRecord: schema updates use the corrected update by table ID (the Findings rows on bigquery/client.go:304-317 and eventkitd-bigquery/bigquery/client.go:174-180). For a table whose friendly name is not its ID, Go's update goes to another table or none and fails, where this member succeeds.
- InsertSink.InsertClient.PrepareTable: schema updates use the corrected update by table ID (the Findings rows on bigquery/client.go:304-317 and eventkitd-bigquery/bigquery/client.go:174-180). For a table whose friendly name is not its ID, Go's update goes to another table or none and fails, where this member succeeds.
- InsertSink.InsertClient.SaveTable: schema updates use the corrected update by table ID (the Findings rows on bigquery/client.go:304-317 and eventkitd-bigquery/bigquery/client.go:174-180). For a table whose friendly name is not its ID, Go's update goes to another table or none and fails, where this member succeeds.
- InsertSink.InsertClient.SaveRecord: schema updates use the corrected update by table ID (the Findings rows on bigquery/client.go:304-317 and eventkitd-bigquery/bigquery/client.go:174-180). For a table whose friendly name is not its ID, Go's update goes to another table or none and fails, where this member succeeds.
- Sink.ReceivePacket: schema updates use the corrected update by table ID (the Findings rows on bigquery/client.go:304-317 and eventkitd-bigquery/bigquery/client.go:174-180). For a table whose friendly name is not its ID, Go's update goes to another table or none and fails, where this member succeeds.
- Sink.BigQuerySink.Receive: schema updates use the corrected update by table ID (the Findings rows on bigquery/client.go:304-317 and eventkitd-bigquery/bigquery/client.go:174-180). For a table whose friendly name is not its ID, Go's update goes to another table or none and fails, where this member succeeds.
- BqDestination.BigQueryDestination.Submit: schema updates use the corrected update by table ID (the Findings rows on bigquery/client.go:304-317 and eventkitd-bigquery/bigquery/client.go:174-180). For a table whose friendly name is not its ID, Go's update goes to another table or none and fails, where this member succeeds.
- SinkDestination.BigQueryDestination.Submit: schema updates use the corrected update by table ID (the Findings rows on bigquery/client.go:304-317 and eventkitd-bigquery/bigquery/client.go:174-180). For a table whose friendly name is not its ID, Go's update goes to another table or none and fails, where this member succeeds.
- Client.UDPClient.Iterate: one clock reading per wake-up serves as the finalized packet's send offset, the new packet's start time and the drops event's timestamp, where client.go:83, client.go:127 and client.go:202 read the clock separately. The readings are nanoseconds apart, and no contract depends on them differing.
- Pb.TagValue: the Timestamp variant always holds a value. A Timestamp tag whose pointer is nil cannot be expressed, so the nil check of bigquery/schema.go:232-234 and the nil dereference that pb/utils.go:45 reaches through AsTime are not modelled.
- Text.TrimSpaceTrimmed: white space is recognised by the UTF-8 bytes of the runes unicode.IsSpace accepts. On ill-formed UTF-8, Go decodes runes first, and the two readings may differ.

## Findings

| source | as written | input that shows it | evidently intended | confidence | as-written member | corrected member |
|---|---|---|---|---|---|---|
| client.go:253-264 | Submit returns right after the first event it manages to queue, so the later arguments of the call are neither queued nor counted as dropped | two events submitted to a client whose queue has room for both | every argument is queued or counted as dropped, as destination/batch.go does | not executed | Client.SubmitLosesLaterEvents | Client.SubmitEachAccounts |
| eventkitd/private/delimited/reader.go:52-76 | after a data frame, a header with an unknown control byte and size 0 sets the error, but the loop reads on, and the end of input then replaces the error with io.EOF, which Err hides | a data frame, then the header [2,0,0], then the end of input | the unknown control byte is reported by Err | not executed | Delimited.UnknownControlMasked | Delimited.UnknownControlReported |
| cmd/eventkitd-sink-bigquery/main.go:178-226 | a table lookup that fails with an error other than 404 is not returned; the nil metadata is dereferenced | SaveRecord on a table whose metadata lookup fails with a service error | the lookup error is returned, as eventkitd-bigquery/bigquery/client.go:105-107 does | not executed | InsertSink.LookupFailurePanics | InsertSink.LoadedMetaFails |
| bigquery/client.go:304-317 | the schema update is sent to Table(metadata.Name), and the new metadata is cached and the stream evicted under metadata.Name; Name is the table's friendly name, not its ID | SaveRecord on a table made outside the sink, whose friendly name is empty, whose first record has a tag without a column | the update goes to Table(table) and the cache and stream entries are those of table, the ID | not executed | BqRemote.FriendlyNameMissesTable | BqClient.BigQueryClient.UpdateTable |
| eventkitd-bigquery/bigquery/client.go:174-180 | the same in the insertAll client's UpdateFields, and in its copies at cmd/eventkitd-sink-bigquery/main.go:261-267 and eventkitd-bigquery/main.go:289-295 | the same input | the same | not executed | BqRemote.FriendlyNameMissesTable | InsertSink.InsertClient.UpdateTable |
