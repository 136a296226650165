# etherware topic core in Dafny

This is a model of the in-process core of the etherware topic messaging
layer. A *topic* is an append-only log of text records. Producers put
records into it. Consumers read them through named *consumer groups*, and
each group has its own read offset.

Two processor roles move records between processes over one websocket:

- **Writeable**: serves a remote reader.
- **Redeable**: fills a local queue from a remote writer.

The two roles follow a READY/CLOSE credit protocol. For discovery:

- a **Moderator** announces topics as zeroconf services;
- a **Witness** collects the announcements it sees;
- a **TopicNode** keeps a reference-counted server pair per topic.

Everything is written as immutable values and pure transition functions.
Python exceptions become `Result` errors, and `None` becomes `Option`.
A coroutine that would wait becomes a step that is not enabled: `Blocked`
or `Pending` outcomes, and a link event that leaves the state unchanged.

Modules, one per file:

- `Common`: `Option`, `Result`, the exception classes, and decimal port
  rendering and parsing.
- `Address`: `host:port` and `http://host:port` formatting, with a reader
  that takes them apart again.
- `Storage`: `MemoryStorage` as a list. `SqliteStorage` as a table of rows
  keyed by row id, related to the list through its contents.
- `TopicQueue`: the consumer-group queue, runs of operations over it, and
  the stream guarantees each group gets.
- `ExecTopicQueue`: the duplicate queue in `exec/`. It is proved to take
  exactly the steps of `TopicQueue` with the `None` default group.
- `TopicProcessor`:
  - the Writeable and Redeable roles;
  - the server and client connection loops;
  - the routing of a request path to a group;
  - `TopicServer.get_address`.
- `CreditProtocol`: a Writeable loop and a Redeable loop joined by one
  socket, run as any interleaving of steps. It proves the one-credit
  invariant and in-order delivery.
- `Moderator`: publish and unpublish over the topic-info map and an
  abstract zeroconf registry (a set of service records).
- `Witness`: the service-event handler over an insertion-ordered topic
  table, and the name stripping of `list_topics`.
- `TopicNode`: `add_topic`, `del_topic`, `start`, `stop`, `get_readable`,
  `get_writeable` and `_get_topics`, wired to the Moderator.

Parameters stand in for values from I/O that the model does not compute:

- the interface address a node's servers use (`get_ip_address`);
- the result of `gethostbyname`. For the node this is the interface's IPv4
  literal, which resolves to itself;
- the `ServiceInfo` a zeroconf lookup returns;
- the URL scheme, host, port and family that binding a server reports.

## Model

| member | source | states |
|---|---|---|
| Common.ParseNatToString | src/etherware/exec/core/topic_processor.py:202 | the decimal rendering of a port number reads back to the same number, so formatted ports are unambiguous |
| Address.SplitHostPortRoundTrip | src/etherware/exec/core/witness.py:40 | a `"%s:%d"` string splits at its last colon back into exactly the host and port it was made from, whatever the host contains |
| Address.HttpAddressRoundTrip | src/etherware/exec/core/topic_processor.py:201-202 | the IPv4 address form `http://h:p` reads back to `(h, p)` for any host not itself in brackets |
| Address.HttpAddress6RoundTrip | src/etherware/exec/core/topic_processor.py:203-204 | the IPv6 address form `http://[h]:p` reads back to `(h, p)` with the brackets removed |
| Address.HttpAddressParses | src/etherware/exec/core/topic_node.py:46 | every `http://<ip>:0` address a node builds parses, and the port read back is the one written |
| Storage.NewMemoryStorage | src/etherware/exec/core/storage.py:21-23 | a fresh in-memory storage has length 0 |
| Storage.MemLenIndexes | src/etherware/exec/core/storage.py:30-35 | `len` counts the keys that read from the front: a non-negative key reads a record exactly when it is below `len`, and length 0 means no key reads anything |
| Storage.MemAppend | src/etherware/exec/core/storage.py:26-27 | append grows the length by exactly one, the record is then at index old-length, and no earlier index changes |
| Storage.MemGet | src/etherware/exec/core/storage.py:34-35 | lookup fails exactly when `key >= len` or `key < -len`, always with IndexError |
| Storage.MemNegativeKey | src/etherware/exec/core/storage.py:34-35 | a negative key in range succeeds and reads the same record as the key `len` places later |
| Storage.MemAppendAllContents | src/etherware/exec/core/storage.py:26-35 | appending records one by one grows the length by their number, keeps every earlier index, and puts the i-th record at old-length + i |
| Storage.MaxRowid | src/etherware/exec/core/storage.py:57 | `max(rowid)` is NULL exactly on an empty table; otherwise it bounds every row id and is attained by some row |
| Storage.SqlLen | src/etherware/exec/core/storage.py:55-59 | `len` is `max(rowid) or 0`: 0 on an empty table; otherwise at least every row id and equal to some row's id; under row ids 1, 2, 3, ... it is the number of rows |
| Storage.NewSqliteStorage | src/etherware/exec/core/storage.py:42-48 | a freshly created table has length 0 |
| Storage.SqlAppend | src/etherware/exec/core/storage.py:50-53 | an insert adds exactly one row at the end, carrying the data, and keeps every earlier row |
| Storage.FindRow | src/etherware/exec/core/storage.py:63-64 | the row query finds data exactly when some row has the id, and the data found is that row's |
| Storage.SqlGet | src/etherware/exec/core/storage.py:61-65 | `storage[key]` fails exactly when no row has id `key + 1`, and then with TypeError (from `None[0]`) |
| Storage.SqlAppendSequential | src/etherware/exec/core/storage.py:50-53 | inserts keep row ids 1, 2, 3, ... and extend the table's contents by exactly the new record |
| Storage.SqlRefinesMemory | src/etherware/exec/core/storage.py:55-65 | under sequential row ids the table's length is `max(rowid) or 0` = its number of rows, and every in-range lookup equals the in-memory lookup over the same contents |
| Storage.SqlPastEndIsTypeError | src/etherware/exec/core/storage.py:61-65 | past the end the table raises TypeError where the list raises IndexError |
| Storage.SqlNegativeKeyDiverges | src/etherware/exec/core/storage.py:61-65 | a negative key succeeds on the list (counting from the end) but fails on the table, which has no row id `<= 0` |
| TopicQueue.NewQueue | src/etherware/exec/core/topic_queue.py:8-13 | a new queue knows no group, reads the given storage, and turns a falsy default group into the `None` group |
| TopicQueue.Setup | src/etherware/exec/core/topic_queue.py:15-17 | an unseen group starts at the current length; a known group leaves the queue unchanged (so setup is idempotent) |
| TopicQueue.Put | src/etherware/exec/core/topic_queue.py:19-24 | put appends the record to the log and moves no offset |
| TopicQueue.PutWakesTail | src/etherware/exec/core/topic_queue.py:19-32 | after a put, a waiter's condition `0 <= top < len` holds exactly when it held before or the waiter was at the old tail; a negative offset never wakes |
| TopicQueue.Get | src/etherware/exec/core/topic_queue.py:26-48 | an unseen group is set up at the tail and waits; a known group gets a record exactly when `0 <= offset < len`, namely `log[offset]`, and only its own offset advances by one |
| TopicQueue.Empty | src/etherware/exec/core/topic_queue.py:50-55 | empty holds exactly when the group is unknown or its offset is at or past the end |
| TopicQueue.EmptyIffGetBlocks | src/etherware/exec/core/topic_queue.py:26-55 | `empty(g)` is true exactly when `get(g)` would have to wait |
| TopicQueue.Next | src/etherware/exec/core/topic_queue.py:69-70 | async iteration delivers the default group's next record and advances that group; an unknown default group waits |
| TopicQueue.RunStream | src/etherware/exec/core/topic_queue.py:34-48 | over any run of puts, setups and gets, every group receives a contiguous stretch of the log in log order, none skipped or repeated, and its offset moves by exactly what it received |
| TopicQueue.TailJoin | src/etherware/exec/core/topic_queue.py:35-36 | a group unknown when a run starts never receives records appended before the run began |
| TopicQueue.KnownGroupStream | src/etherware/exec/core/topic_queue.py:38-48 | a group known when a run starts receives exactly the log from its offset onward, in order, however the run interleaves other groups |
| TopicQueue.Broadcast | src/etherware/exec/core/topic_queue.py:47 | two groups at the same offset read the same stream: one's deliveries are a prefix of the other's |
| TopicQueue.GetsOnlyForTheirGroup | src/etherware/exec/core/topic_queue.py:47 | gets on one group deliver nothing to any other group |
| TopicQueue.RunPuts | src/etherware/exec/core/topic_queue.py:19-20 | a sequence of puts appends its records in order and delivers nothing |
| TopicQueue.RunGets | src/etherware/exec/core/topic_queue.py:34-48 | k gets on a group with k unread records return exactly those records in order and advance the offset by k |
| TopicQueue.PutsThenGets | tests/core/test_topic_queue.py:8-27 | a group set up before k puts receives exactly those k records, in put order, from k gets |
| TopicQueue.ConsumerFirst | tests/core/test_topic_queue.py:8-27 | a consumer whose first get comes before the puts receives every record put, in order |
| TopicQueue.ProducerFirst | tests/core/test_topic_queue.py:30-54 | a backlog put before the consumer's first get is never seen; the consumer receives exactly the later records |
| TopicQueue.DrainTwo | tests/core/test_topic_queue.py:57-75 | two groups at the same offset each receive the same k records |
| TopicQueue.TwoGroups | tests/core/test_topic_queue.py:57-75 | consumers of two distinct groups that started before the puts each receive every record, in put order |
| ExecTopicQueue.NewExecQueue | src/etherware/exec/exec/topic_queue.py:6-10 | the duplicate queue starts with no group and the given storage |
| ExecTopicQueue.Setup | src/etherware/exec/exec/topic_queue.py:12-14 | an unseen group starts at the current length; a known one changes nothing |
| ExecTopicQueue.Put | src/etherware/exec/exec/topic_queue.py:16-21 | put appends and leaves every offset unchanged |
| ExecTopicQueue.Get | src/etherware/exec/exec/topic_queue.py:31-45 | an unseen group joins at the tail and waits; a known one gets `log[offset]` exactly when `0 <= offset < len`, and only its offset advances |
| ExecTopicQueue.Empty | src/etherware/exec/exec/topic_queue.py:47-52 | empty exactly when the group is unknown or has nothing unread |
| ExecTopicQueue.NewRefines | src/etherware/exec/exec/topic_queue.py:6-10 | the duplicate's constructor is the core constructor with the `None` default group |
| ExecTopicQueue.WaitConditionRefines | src/etherware/exec/exec/topic_queue.py:23-29 | the duplicate's two-comparison wait condition is the same predicate as the core's chained one |
| ExecTopicQueue.SetupRefines | src/etherware/exec/exec/topic_queue.py:12-14 | setup of the duplicate is setup of the core queue |
| ExecTopicQueue.PutRefines | src/etherware/exec/exec/topic_queue.py:16-21 | put of the duplicate is put of the core queue |
| ExecTopicQueue.GetRefines | src/etherware/exec/exec/topic_queue.py:31-45 | every get of the duplicate is the core get: same enabling, same record, same offsets |
| ExecTopicQueue.EmptyRefines | src/etherware/exec/exec/topic_queue.py:47-52 | empty of the duplicate is empty of the core queue |
| TopicProcessor.NewWriteable | src/etherware/exec/core/topic_processor.py:49-52 | a Writeable topic's queue already has the `None` group at the storage's length, and `ready` starts unset |
| TopicProcessor.WriteableConnection | src/etherware/exec/core/topic_processor.py:55-56 | a connection sets its group up in the queue and changes nothing else |
| TopicProcessor.ServeReady | src/etherware/exec/core/topic_processor.py:64-78 | with a record for the group, exactly that one record is sent, the offset advances and `ready` clears (result True); without one, a closed socket returns False and an open one keeps waiting, sending nothing |
| TopicProcessor.WriteableProcessing | src/etherware/exec/core/topic_processor.py:59-78 | CLOSE returns False and sends nothing; other non-READY text returns `None`; only a READY can send, at most the group's next record; True only when a record was sent |
| TopicProcessor.WriteablePut | src/etherware/exec/core/topic_processor.py:85-87 | put goes through exactly when `ready` is set; it then appends the record to the queue and leaves `ready` set |
| TopicProcessor.NewRedeable | src/etherware/exec/core/topic_processor.py:92-93 | a Redeable topic's queue reads the given storage with no group known |
| TopicProcessor.OpenPutWaitsForReady | src/etherware/exec/core/topic_processor.py:85-87 | a Writeable loop just opened (server side, or client side with the connection event kept apart) has `ready` unset, so a put waits |
| TopicProcessor.RedeableConnection | src/etherware/exec/core/topic_processor.py:96-97 | connecting sends exactly one READY |
| TopicProcessor.RedeableProcessing | src/etherware/exec/core/topic_processor.py:101-111 | a text frame is stored in the queue and answered with exactly one READY (True); an error frame returns False; anything else returns `None`, changing nothing |
| TopicProcessor.RedeableDisconnection | src/etherware/exec/core/topic_processor.py:114-116 | CLOSE is sent exactly when the socket is still open |
| TopicProcessor.RedeableGet | src/etherware/exec/core/topic_processor.py:119-121 | get delivers exactly when the group has an unread record, and it is that record |
| TopicProcessor.RouteGroup | src/etherware/exec/core/topic_processor.py:220-221 | the root path maps to the `None` group, `/<segment>` to that segment, and no other path has a route |
| TopicProcessor.RouteGroupOfSegment | src/etherware/exec/core/topic_processor.py:245 | the path built from a segment routes back to that segment's group |
| TopicProcessor.Open | src/etherware/exec/core/topic_processor.py:244-252 | a server loop takes its group from the request path (no loop without a route), a client loop always uses `None`; then the role's `connection` runs |
| TopicProcessor.OpenAsWritten | src/etherware/exec/core/topic_processor.py:138-151 | as written, opening a Writeable client also sets its `ready`, because the client's connection event replaces it |
| TopicProcessor.ClientPutBeforeReady | src/etherware/exec/core/topic_processor.py:142-148 | as written, a freshly connected Writeable client accepts `put` before any READY has arrived |
| TopicProcessor.LoopStep | src/etherware/exec/core/topic_processor.py:254-266 | one message consumed per step; an error or close frame ends the loop, and the loop only ever ends with the socket closed; the group and the role kind never change |
| TopicProcessor.ErrorFrameEndsLoop | src/etherware/exec/core/topic_processor.py:159-170 | an error frame, which arrives on a socket `receive` has already closed, ends the client's loop and the server's (whose next read finds the socket closed) with nothing sent, the Redeable CLOSE included |
| TopicProcessor.Resume | src/etherware/exec/core/topic_processor.py:64-74 | a waiting Writeable loop that times out tries again with the same group and socket input |
| TopicProcessor.WriteableCloseEndsLoop | src/etherware/exec/core/topic_processor.py:60-61 | on the Writeable side CLOSE ends the loop with the socket closed and nothing sent |
| TopicProcessor.WriteableUnknownTextEndsLoop | src/etherware/exec/core/topic_processor.py:257-260 | a text that is neither sentinel makes processing return `None`, which the loop treats as false: it closes and ends, sending nothing |
| TopicProcessor.WriteableReadyAnswersOnce | src/etherware/exec/core/topic_processor.py:62-78 | a READY is answered with exactly the group's next record when there is one, and otherwise leaves the loop waiting without sending |
| TopicProcessor.RedeableTextAnswersReady | src/etherware/exec/core/topic_processor.py:101-105 | on the Redeable side every text frame is stored and answered with one READY, and the loop goes on |
| TopicProcessor.NewServer | src/etherware/exec/core/topic_processor.py:190-196 | an unstarted server reports its configured address |
| TopicProcessor.Bind | src/etherware/exec/core/topic_processor.py:226-232 | after start the server has a runner and counts as bound exactly when scheme and host are non-empty and the port is not 0, and then it holds the socket's host, port and family; the configured address is kept |
| TopicProcessor.StopServer | src/etherware/exec/core/topic_processor.py:224-241 | stop raises AttributeError exactly on a server that was never started (no runner); otherwise the server is unbound, keeps its runner, and reports its configured address again |
| TopicProcessor.StartStopStop | src/etherware/exec/core/topic_processor.py:224-241 | a started server can be stopped, and stopped again, and then reports its configured address |
| TopicProcessor.GetAddress | src/etherware/exec/core/topic_processor.py:199-207 | while scheme, host or port is falsy the configured address is returned; once bound it fails exactly for a family other than IPv4 and IPv6, with RuntimeError |
| TopicProcessor.GetAddressReadsBack | src/etherware/exec/core/topic_processor.py:199-207 | a bound IPv4 or IPv6 server's reported address reads back to the host and port it is bound to |
| TopicProcessor.UnstartedReportsPortZero | src/etherware/exec/core/topic_processor.py:199-202 | the server `add_topic` publishes has never been started, so it reports its configured `http://<ip>:0`, which reads back with port 0 |
| CreditProtocol.NextKeeps | src/etherware/exec/core/topic_processor.py:62-105 | every step of the joined loops keeps the one-credit invariant: exactly one READY, waiting loop or record is in play, and the Redeable log plus what is in flight is the Writeable group's stream since it joined |
| CreditProtocol.RunKeeps | src/etherware/exec/core/topic_processor.py:62-105 | any sequence of steps keeps that invariant |
| CreditProtocol.OpenGivesOpened | src/etherware/exec/core/topic_processor.py:96-97 | opening both ends with the corrected client, the Writeable as server and the Redeable as client or the other way round, leaves one READY sent and nothing else, with the Writeable side's `ready` unset |
| CreditProtocol.OpenAsWrittenGivesOpened | src/etherware/exec/core/topic_processor.py:96-97 | with the client classes as written, both directions also reach the opened state; `ready` is set exactly when the Writeable side is the client |
| CreditProtocol.OpenedInv | src/etherware/exec/core/topic_processor.py:96-97 | the freshly opened link satisfies the invariant, with the first READY holding the credit |
| CreditProtocol.CreditProperty | src/etherware/exec/core/topic_processor.py:62-105 | over any run from an opened link, whatever its `ready` flag: records sent never exceed READYs read and trail them by at most one; at most one record is in flight; the Redeable queue holds its old contents then the Writeable group's records in order, minus the one in flight |
| CreditProtocol.AsWrittenCreditProperty | src/etherware/exec/core/topic_processor.py:62-105 | the credit property above holds for the program as written in both directions, a Writeable client with `ready` set on connect included |
| CreditProtocol.NextKeepsReady | src/etherware/exec/core/topic_processor.py:62-87 | from a state where `ready` is set exactly while the Writeable loop holds the credit, every step keeps it so |
| CreditProtocol.RunKeepsReady | src/etherware/exec/core/topic_processor.py:62-87 | any sequence of steps keeps both the one-credit invariant and that `ready` discipline |
| CreditProtocol.PutOnlyWhileServing | src/etherware/exec/core/topic_processor.py:84-87 | in a link whose `ready` follows that discipline, a put issued between two steps goes through exactly while a READY has been read and not yet answered |
| CreditProtocol.CorrectedPutOnlyWhileServing | src/etherware/exec/core/topic_processor.py:84-87 | over any run from a link opened with `ready` unset, as the corrected client gives, a put issued after the run goes through exactly while a READY is unanswered, and then the READYs lead the records by one |
| Moderator.InstanceName | src/etherware/exec/core/moderator.py:36 | the instance name is the topic, a dot, then the service type |
| Moderator.InstanceNameInjective | src/etherware/exec/core/moderator.py:36 | different topics never share an instance name |
| Moderator.NewModerator | src/etherware/exec/core/moderator.py:13-15 | a new moderator has nothing published and is consistent |
| Moderator.MarkedProperties | src/etherware/exec/core/moderator.py:39 | the record's properties are the caller's plus `etherware=True`; a caller's own `etherware` key is a repeated keyword and raises TypeError |
| Moderator.PublishTopic | src/etherware/exec/core/moderator.py:27-43 | a published name returns False with no change; otherwise (zeroconf's own name checks aside) a missing port (`int(None)`), then a duplicate marker, raises TypeError and stores nothing; on success exactly one record is stored under the name and registered, with the service type, instance name, host address, port and marked properties, and the call returns `None` |
| Moderator.UnpublishTopic | src/etherware/exec/core/moderator.py:45-51 | an unknown name returns False with no change; a known one loses only its own entry and registration, and the call returns `None` |
| Moderator.PublishKeepsConsistent | src/etherware/exec/core/moderator.py:42-43 | publishing keeps the topic map, its key order and the registry in agreement |
| Moderator.UnpublishKeepsConsistent | src/etherware/exec/core/moderator.py:50-51 | unpublishing keeps them in agreement |
| Moderator.FirstPublishWins | src/etherware/exec/core/moderator.py:29-30 | once a name is published, any later publish of it is refused and the first record stays |
| Moderator.PublishUnpublishRoundTrip | src/etherware/exec/core/moderator.py:27-51 | publishing a new name and unpublishing it restores the moderator exactly |
| Moderator.UnpublishTopicsAsWritten | src/etherware/exec/core/moderator.py:53-55 | as written, with any topic published, the first is unpublished and then the loop raises RuntimeError |
| Moderator.UnpublishTopicsLeavesTopics | src/etherware/exec/core/moderator.py:53-55 | with two topics published, the written loop raises and leaves a topic published and registered |
| Moderator.UnpublishTopicsClears | src/etherware/exec/core/moderator.py:53-55 | unpublishing over a snapshot of the names leaves nothing published and nothing registered |
| Witness.Store | src/etherware/exec/core/witness.py:45 | storing under a known name keeps the names and their order; a new name goes last; other entries are untouched; the name then maps to the new value |
| Witness.Delete | src/etherware/exec/core/witness.py:46-48 | removing keeps exactly the entries with other names, the remaining names in their order, and an absent name changes nothing |
| Witness.AddressStrings | src/etherware/exec/core/witness.py:39-42 | one `"addr:port"` string per parsed address, in order |
| Witness.AdvertisedMarked | src/etherware/exec/core/witness.py:44 | after zeroconf's TXT encoding the marker test passes exactly for an `etherware` property that is a boolean, `False` included, or a non-empty text |
| Witness.OnServiceStateChange | src/etherware/exec/core/witness.py:29-48 | an Added event with resolved info and a truthy marker maps the name to its address strings; without info or marker it changes nothing; Removed deletes the name; Updated changes nothing; other names are untouched |
| Witness.OnServiceStateChangeUnique | src/etherware/exec/core/witness.py:29-48 | the handler keeps each name in the table once |
| Witness.AddedKnownKeepsNames | src/etherware/exec/core/witness.py:45 | an Added event for a known name overwrites its value and leaves the names and their order unchanged |
| Witness.StripLocalSuffix | src/etherware/exec/core/witness.py:59 | a name longer than the suffix plus its dot loses exactly those characters; a shorter one strips to the empty string |
| Witness.ListTopics | src/etherware/exec/core/witness.py:50-59 | one entry per stored name, in table order, each stripped of the suffix |
| Witness.StripRoundTrip | src/etherware/exec/core/witness.py:59 | `t + "." + LOCAL_SUFFIX` strips back to `t` |
| Witness.StripInstanceName | src/etherware/exec/core/witness.py:15 | the witness suffix is the moderator's service type, so every instance name strips back to its topic |
| Witness.PublishedTopicIsListed | tests/core/test_topic_node.py:10-18 | a record the moderator published, once announced as added, makes the witness list its topic; a removal takes it out again |
| Witness.AddedThenRemovedListsNothing | tests/core/test_topic_node.py:20-23 | after one topic is added and removed, the list is empty |
| TopicNode.NewNode | src/etherware/exec/core/topic_node.py:11-16 | a new node has no topics and is valid |
| TopicNode.GetTopics | src/etherware/exec/core/topic_node.py:24-25 | a truthy name selects itself; `None` or `""` selects every topic. The result is a set, so the order in which `start` and `stop` visit topics is not kept; their outcomes here do not depend on it, because each server start succeeds and a failing stop leaves the node as it was |
| TopicNode.AddTopic | src/etherware/exec/core/topic_node.py:41-64 | a known name only increments its count and returns False, or raises KeyError when it has no count; a new one that succeeds gets a pair over one fresh storage and count 1, and returns True |
| TopicNode.GetReadable | src/etherware/exec/core/topic_node.py:66-72 | the pair's first server, or NotTopicError exactly for an unknown name |
| TopicNode.GetWriteable | src/etherware/exec/core/topic_node.py:74-80 | the pair's second server, or NotTopicError exactly for an unknown name |
| TopicNode.Start | src/etherware/exec/core/topic_node.py:27-32 | KeyError exactly for a truthy name the node lacks; otherwise every selected pair is started and every other pair, the counts and the moderator stay |
| TopicNode.Stop | src/etherware/exec/core/topic_node.py:34-39 | succeeds exactly when every selected topic exists with both servers started; KeyError for a truthy name the node lacks, AttributeError otherwise |
| TopicNode.StopOne | src/etherware/exec/core/topic_node.py:34-39 | stopping one named topic raises KeyError if it is unknown, AttributeError if its pair was never started, and succeeds otherwise |
| TopicNode.DelTopic | src/etherware/exec/core/topic_node.py:82-94 | a count above 1 is decremented (True); a count of 1 unpublishes, then stops the topic: if that raises, the exception propagates with the pair and count kept, otherwise the pair is dropped and the count set to 0 (True); a count below 1 gives False and no change |
| TopicNode.PublishServer | src/etherware/exec/core/topic_node.py:51-60 | a publish fails with the address error when the server cannot report one; when it succeeds the name is published; a name already published keeps the moderator unchanged |
| TopicNode.PublishFreshServer | src/etherware/exec/core/topic_node.py:51-60 | publishing an unstarted server succeeds for any name zeroconf accepts and leaves the name published; for a new name it stores the server's record at port 0 |
| TopicNode.AddTopicPublishesProducer | src/etherware/exec/core/topic_node.py:51-60 | add_topic does not raise on a valid node for a name zeroconf accepts; of its two publishes only the first takes effect, so the moderator keeps the producer record at port 0 and drops the consumer's |
| TopicNode.AddTopicKeepsValid | src/etherware/exec/core/topic_node.py:41-64 | adding keeps a pair exactly for names with count at least 1, each over its own storage, and every topic published |
| TopicNode.DelTopicKeepsValid | src/etherware/exec/core/topic_node.py:82-94 | deleting keeps a valid node valid; it raises exactly on the last delete of a topic whose pair was never started, with AttributeError, the name unpublished and the pair kept; otherwise every topic stays published |
| TopicNode.DelTopicUnpublishes | src/etherware/exec/core/topic_node.py:87-92 | the last delete unpublishes the topic whatever follows; it returns True, drops the pair, sets the count to 0 and makes later lookups raise NotTopicError exactly when stopping the pair succeeds, and otherwise keeps pair and count |
| TopicNode.AddDelBalance | src/etherware/exec/core/topic_node.py:41-94 | an add then a delete of a known name restores the node and returns True; for a new name the delete raises AttributeError after unpublishing, since the new pair was never started, leaving the pair and count 1 |
| TopicNode.AddDelUnstarted | src/etherware/exec/core/topic_node.py:41-94 | the delete right after adding a new name raises AttributeError, keeps the pair and count 1, and leaves the name unpublished |
| TopicNode.AddStartDelBalance | src/etherware/exec/core/topic_node.py:27-94 | add, start every topic, then delete: returns True, the node has its old topics, each now started, and its old counts; for a new, unpublished name on an IPv4 address the moderator is as before |
| TopicNode.BasicNode | tests/core/test_topic_node.py:10-23 | on a fresh node, add a topic, start all, stop all, delete: every step succeeds, the topic is published while it exists, and the node ends with no topics and, for a new name on an IPv4 address, its moderator as it began |
| TopicNode.ReAddIsFresh | src/etherware/exec/core/topic_node.py:41-64 | re-adding after a last delete that went through creates a new pair with count 1, over a storage no other pair uses |

## Left out

- Daemon, executable and mainloop code: process plumbing, dynamic code execution and orchestration outside the messaging core.
- The aiohttp server and client lifecycle: `TopicServer.start` beyond the fields and runner it records (`Bind`), `on_shutdown`, and `TopicClient.start`/`stop`. `TopicNode.start` and `stop` are modelled through a started flag per server; binding never fails. `TopicNode.loop` is left out for the same reason.
- `Moderator.start`/`stop` and `Witness.start`/`stop`: they open and close zeroconf. The model assumes zeroconf is open.
- Zeroconf browsing and the `sleep` in `list_topics`: `ListTopics` is the list computed after browsing.
- `Witness.Advertise` encodes properties as zeroconf does (`True` becomes `"true"`); that library is not part of this model.
- `socket.gethostbyname`, `get_ip_address`, `inet_aton` packing, and `urlparse` of strings other than the `http://host:port` form: these are parameters or reduced to that form.
- `urlparse` lowercasing host names: the hosts here are IP literals.
- SQL text, the timestamp column, and commits: the table is its rows. SQLite reuses the largest row id plus one.
- Asyncio conditions and notification: `Get` answers `Blocked` where the coroutine would wait.
  - `get` reads the offset before suspending and writes it after. Two waiters on the same group can therefore return the same record.
  - Each `Get` here is atomic. No claim is made about duplicate deliveries under such interleavings.
- `TopicQueue._first` and `__str__`: the value is stored but never read.
- TopicQueue.RunStream: its contract is per group and per atomic step, for the reason above.
- Both loops log `ws.exception()` on an error frame; the log is not modelled. The server's further read of the closed socket, which ends its loop, is folded into the error frame's step.
- Sending on a socket already closed: `Send` appends to the outbox regardless. The loops never send after closing, except a Redeable disconnection on a closed socket, which sends nothing.
- `core/topic_node.py` imports `ReadableTopicServer`, but `core/topic_processor.py` defines only `RedeableTopicServer`. Importing the node module therefore fails. The model treats the node's servers as opaque handles and names the readable one after its role.
- The `exec/` iteration (`exec/topic.py`, `exec/moderator.py`, `exec/witness.py`) is superseded. Only its `TopicQueue` is modelled.
- TopicNode.Valid requires that every pair's storage is distinct and drawn earlier. Fresh storages are modelled as a counter rather than as new objects.
- Shared storage: a node's readable and writeable servers are built over one storage object, so records a producer puts through one reach consumers of the other. The model keeps which storage each pair uses, but each role holds its own copy of the log, so that path through the shared object is not modelled.
- Shared queue and `ready`: every connection to one `WriteableTopicServer` uses the same queue and the same `ready` event, so a READY read on one connection lets a put through for all of them. The credit protocol is proved for one connection with its own role.
- TopicNode.GetTopics: a set, not the ordered list or key view the source returns, so the order of starts and stops across topics is not modelled.
- The Python `ready` event is a flag. `WriteablePut` returns `None` while the flag is unset, which models the waiting put. A put that is already waiting is not kept: in the source, `ready.set()` on a READY releases every waiting put, and it completes even if the READY is answered and `ready` cleared before it resumes.
- CreditProtocol.PutOnlyWhileServing: the "goes through only while a READY is unanswered" direction holds for a put issued at a step boundary. A put already waiting when a READY is read and answered is released by the source while the Writeable loop is no longer serving.
- CreditProtocol.CorrectedPutOnlyWhileServing: the same limit; over a run, a put waiting across a READY that is answered at once completes in the source, outside the serving state.
- CreditProtocol: the joined link has no close step. Both sockets stay open through every run, so CLOSE, the disconnection handlers and the end of either loop are covered per loop only (`LoopStep`, `WriteableCloseEndsLoop`, `RedeableDisconnection`).
- Moderator.PublishTopic: zeroconf's checks are not modelled. `ServiceInfo` rejects an instance name with `BadTypeInNameException`: an empty topic (the name then starts with a dot), a first label over 63 UTF-8 bytes, or ASCII control characters. `register_service` raises `NonUniqueNameException` when another host holds the name. The rules belong to the zeroconf library, which is not part of this model; here every name is accepted.
- TopicNode.PublishFreshServer: its success holds only for topic names zeroconf accepts (see `Moderator.PublishTopic` above); `add_topic("")` raises in the source.
- TopicNode.AddTopicPublishesProducer: "does not raise" holds only for names zeroconf accepts, for the same reason. AddTopicKeepsValid, AddDelBalance, AddDelUnstarted, AddStartDelBalance and ReAddIsFresh rely on it and share the limit.
- TopicNode.BasicNode: every step succeeds only for a name zeroconf accepts; the repository's test uses `"test 1"`, which it does.

## Findings

| source | as written | input that shows it | evidently intended | confidence | as-written member | corrected member |
|---|---|---|---|---|---|---|
| src/etherware/exec/core/moderator.py:53-55 | `unpublish_topics` iterates over the live key view of `_topic_info`, and `unpublish_topic` deletes from that dict inside the loop | any non-empty map: after the first topic is unpublished, the next iteration step raises `RuntimeError: dictionary changed size during iteration`; with two topics one stays published and registered | unpublish every topic of a snapshot of the keys, leaving nothing published | high (CPython dict iteration semantics; not executed) | Moderator.UnpublishTopicsAsWritten | Moderator.UnpublishTopicsClears |
| src/etherware/exec/core/topic_processor.py:270-274 | `WriteableTopicClient` runs `WriteableTopic.__init__` and then `TopicClient.__init__`. Both assign `self.ready` (lines 52 and 142), so the second event replaces the first, and `connect` sets it on connection (line 148) | a Writeable client that has just connected, with no READY received yet: `put` does not wait | `put` waits for a READY on the client side as on the server side, with the connection event kept apart | medium (the name clash is certain; the intent is inferred from `WriteableTopic.put`; not executed) | TopicProcessor.ClientPutBeforeReady | CreditProtocol.CorrectedPutOnlyWhileServing |
