# elasticsearch-hadoop: the Map/Reduce read and write paths, in Dafny

This project models the core of elasticsearch-hadoop's Map/Reduce
integration. It covers three pieces:

- `RestRepository`: one task's session with an Elasticsearch cluster.
  - Its write side buffers serialized bulk fragments in a byte buffer with a
    capacity and an entry threshold. It flushes them as one bulk request. A
    failed flush taints the session, and a tainted session never sends its
    remaining data at close. Close refreshes the index when configured.
  - Its topology side resolves shards to the nodes that serve them. A
    snapshot that names an unknown node is retried, at most three times.
- `EsOutputFormat.EsRecordWriter`: the writer of a task.
  - On the first write it pins a node for discovery.
  - For an index pattern, it then pins a random node.
  - For a single index, it creates the index if needed and finds the primary
    shards. It sorts them, takes the task's bucket `instance % N` and pins the
    node of that shard.
  - Every write goes to the session it opened. Closing lets the next write
    initialize again.
- `EsInputFormat`: the reader side.
  - `getSplits` checks that the read index exists, resolves its shards, and
    fetches the mapping when there is a shard. It closes its session and
    builds one `ShardInputSplit` per shard.
  - A split travels between processes through `write` / `readFields`.
  - A `ShardRecordReader` opens a scroll on the split's shard and node at the
    first `next`. It hands out one document per call through a `Text` key and
    a `MapWritable` value, and counts the documents it hands out.

The cluster is an oracle: a client answers its n-th request with the oracle's
value at n, and keeps a ghost log of what it sent. Every property below
therefore holds for every answer the oracle can give: failing bulks and
refreshes, refused mapping requests, and topologies that change between
fetches. The other requests (shard layout, node registry, existence check,
touch, health wait) always answer in this model; see "## Left out".

Modules, in dependency order:

| File | Module | Contents |
|---|---|---|
| `es_types.dfy` | `EsTypes` | Bytes, Java ints, nodes, shard copies, entries, settings, failures. |
| `transport.dfy` | `Transport` | The oracle, the requests and the client standing in for the HTTP transport. |
| `topology.dfy` | `Topology` | One resolution attempt over one topology snapshot. |
| `rest_repository.dfy` | `Repository` | `RestRepository`, as a class. |
| `shard_assignment.dfy` | `ShardAssignment` | The writer's instance, pin, shard sort and bucket choice. |
| `es_record_writer.dfy` | `RecordWriter` | `EsRecordWriter`, as a class. |
| `split_codec.dfy` | `SplitCodec` | The split's byte layout, Java's `DataOutput` / `DataInput`, round trips. |
| `shard_input_split.dfy` | `ShardSplit` | `ShardInputSplit`, as a class. |
| `es_input_format.dfy` | `InputFormat` | `getSplits` (a specification function `Plan` and the method), and the record reader. |

## Model

| member | source | states |
|---|---|---|
| Repository.RestRepository.constructor | mr/src/main/java/org/elasticsearch/hadoop/rest/RestRepository.java:78-92 | A new session keeps the settings, takes the read and write resources only when they have text, talks to a fresh client, and has nothing buffered, nothing accepted and write-side initialization still pending. |
| Repository.Create | mr/src/main/java/org/elasticsearch/hadoop/rest/RestRepository.java:78-92 | A configuration naming neither a read nor a write resource is refused with the invalid-configuration error; any other configuration gives a valid freshly opened session. |
| Repository.RestRepository.LazyInitWriting | mr/src/main/java/org/elasticsearch/hadoop/rest/RestRepository.java:95-106 | Write-side initialization happens once: afterwards the capacity, entry threshold and refresh flag equal the settings, and a second call changes nothing. Buffered data and counters are untouched. |
| Repository.AvailableIn | mr/src/main/java/org/elasticsearch/hadoop/rest/RestRepository.java:152 | The room left in the buffer is the capacity minus the buffered bytes, and never negative. |
| Repository.RestRepository.SendBatch | mr/src/main/java/org/elasticsearch/hadoop/rest/RestRepository.java:165-180 | A flush sends exactly one bulk request with the buffered bytes. If the transport accepts it, the buffer and entry count are emptied, the pending fragments count as delivered and a bulk write is recorded. If the transport refuses it, the session is tainted and the buffer is kept. Without a client the flush raises a null reference, which is not the failure the taint is set for, and nothing changes. |
| Repository.RestRepository.AppendFragment | mr/src/main/java/org/elasticsearch/hadoop/rest/RestRepository.java:156-159 | Appending puts the fragment after the buffered bytes and increments the entry count by one; nothing is sent. |
| Repository.RestRepository.MakeRoomFor | mr/src/main/java/org/elasticsearch/hadoop/rest/RestRepository.java:151-154 | A fragment larger than the room left triggers one flush of the current buffer; otherwise nothing is sent. It fails only when that flush fails: a refused bulk taints the session, a missing client changes nothing. |
| Repository.RestRepository.AppendAndCheck | mr/src/main/java/org/elasticsearch/hadoop/rest/RestRepository.java:156-162 | After the append, reaching a positive entry threshold flushes all pending fragments, the new one included, as one bulk request. On success the entry count is again below the threshold. Without a client the fragment stays buffered, and a due flush fails with the null reference without tainting the session. |
| Repository.RestRepository.DoWriteToIndex | mr/src/main/java/org/elasticsearch/hadoop/rest/RestRepository.java:150-163 | One write, relative to the write state before it, has the full effect of the room check, the append and the threshold check: the requests sent, what is accepted and pending, the taint and the bulk-written flag. A session whose client was released still buffers; only a flush it needs fails, with the null reference and no taint. |
| Repository.RestRepository.WriteToIndex | mr/src/main/java/org/elasticsearch/hadoop/rest/RestRepository.java:127-132 | A null object is refused with the no-data error and nothing changes. Otherwise writing is initialized and the codec's fragment is written with the full write effect, whether or not the session still has its client. |
| Repository.RestRepository.WriteProcessedToIndex | mr/src/main/java/org/elasticsearch/hadoop/rest/RestRepository.java:140-148 | A null or empty payload is refused with the no-data error and nothing changes. Otherwise writing is initialized and the payload itself is written with the full write effect, whether or not the session still has its client. |
| Repository.RestRepository.Close | mr/src/main/java/org/elasticsearch/hadoop/rest/RestRepository.java:183-213 | Close flushes remaining data only when the session is not tainted. It refreshes when configured and some bulk succeeded. A successful close releases the client; a failure reports which request failed. Without a client, a flush of untainted data or a due refresh fails with the null reference and nothing changes. |
| Repository.RestRepository.DoGetTargetShards | mr/src/main/java/org/elasticsearch/hadoop/rest/RestRepository.java:230-252 | One attempt sends a shard-layout fetch and a node-registry fetch, and its result is the resolution of the two answers. |
| Repository.RestRepository.GetTargetShards | mr/src/main/java/org/elasticsearch/hadoop/rest/RestRepository.java:220-228 | The first of three attempts that is not stale gives the map, and exactly as many attempts as were needed are sent. The volatile-cluster error comes iff all three attempts are stale, after six requests. |
| Repository.RestRepository.ResolveTargets | mr/src/main/java/org/elasticsearch/hadoop/rest/RestRepository.java:220-262 | The retry loop gives the policy function's result: on success the first resolving attempt's map and the number of attempts made, with that many fetch pairs sent; otherwise the volatile-cluster error after three fetch pairs. |
| Repository.FirstResolved | mr/src/main/java/org/elasticsearch/hadoop/rest/RestRepository.java:220-228 | The retry policy over attempt outcomes: the first resolving attempt and the count of attempts made; the volatile-cluster error iff none resolves. |
| Repository.FirstResolvedIsRetryOutcome | mr/src/main/java/org/elasticsearch/hadoop/rest/RestRepository.java:220-228 | A retry loop that stopped at attempt k, after k stale attempts, gives what the policy function gives. |
| Repository.RestRepository.GetReadTargetShards | mr/src/main/java/org/elasticsearch/hadoop/rest/RestRepository.java:220-228 | The read targets are the retry policy's result over the three read attempts, with the attempts counted and exactly their fetches sent. |
| Repository.RestRepository.GetWriteTargetPrimaryShards | mr/src/main/java/org/elasticsearch/hadoop/rest/RestRepository.java:254-262 | The primary-shard map is the retry policy's result over the three write attempts, with the attempts counted and exactly their fetches sent. |
| Repository.RestRepository.GetMapping | mr/src/main/java/org/elasticsearch/hadoop/rest/RestRepository.java:287-289 | One mapping request for the read resource; a refused request is the invalid-request error, otherwise the returned document. |
| Repository.RestRepository.Scan | mr/src/main/java/org/elasticsearch/hadoop/rest/RestRepository.java:115-120 | One scan request on the read resource for a shard and node; the reply is the cluster's answer to it. |
| Repository.RestRepository.IndexExists | mr/src/main/java/org/elasticsearch/hadoop/rest/RestRepository.java:302-317 | The index exists when the cheap check says so, or, for a read, when a follow-up mapping request returns a non-empty mapping. The follow-up is sent only for a read whose cheap check missed. |
| Repository.RestRepository.Touch | mr/src/main/java/org/elasticsearch/hadoop/rest/RestRepository.java:323-325 | One touch request on the write resource; the answer says whether the index was created. |
| Repository.RestRepository.WaitForYellow | mr/src/main/java/org/elasticsearch/hadoop/rest/RestRepository.java:327-329 | One health request on the write resource; the answer says whether the wait timed out. |
| Repository.Fetches | mr/src/main/java/org/elasticsearch/hadoop/rest/RestRepository.java:221-224 | k attempts send 2k requests: a shard-layout fetch, then a node-registry fetch, each time. |
| Topology.FirstQualifying | mr/src/main/java/org/elasticsearch/hadoop/rest/RestRepository.java:236-248 | The copy a group contributes is the first one that qualifies: started for reads, primary for writes. |
| Topology.SelectTargets | mr/src/main/java/org/elasticsearch/hadoop/rest/RestRepository.java:230-285 | The nested loops compute the resolution: each group's first qualifying copy with the registry's node, no entry for a group without one, and no map at all once a selected copy's node is unknown. |
| Topology.ResolveStaleIff | mr/src/main/java/org/elasticsearch/hadoop/rest/RestRepository.java:240-243 | An attempt is stale iff some group selects a copy whose node id the registry does not list. |
| Topology.ResolveEntries | mr/src/main/java/org/elasticsearch/hadoop/rest/RestRepository.java:236-248 | A resolved map has one entry per group with a qualifying copy, never more than the groups. Every entry pairs a qualifying copy with the registry's node for its node id. |
| Topology.ResolveGroupwise | mr/src/main/java/org/elasticsearch/hadoop/rest/RestRepository.java:236-248 | When every group has a qualifying copy, entry k is group k's first qualifying copy. |
| Topology.ResolveNoneQualifying | mr/src/main/java/org/elasticsearch/hadoop/rest/RestRepository.java:236-248 | A snapshot with no qualifying copy resolves to an empty map, not to a stale attempt. |
| ShardAssignment.DetectCurrentInstance | mr/src/main/java/org/elasticsearch/hadoop/mr/EsOutputFormat.java:268-277 | The instance is the task id when the configuration has one, and the negative no-task-id marker otherwise. |
| ShardAssignment.JavaRem | mr/src/main/java/org/elasticsearch/hadoop/mr/EsOutputFormat.java:185 | Java's remainder: the usual one for a non-negative dividend, and a non-positive value of the dividend's sign otherwise. |
| ShardAssignment.PrePinAsWritten | mr/src/main/java/org/elasticsearch/hadoop/mr/EsOutputFormat.java:183-185 | The pre-discovery pin as the code computes it: an empty node list divides by zero, a success is a listed node, and a task id picks position `id % N`. |
| ShardAssignment.NoTaskIdPrePinFails | mr/src/main/java/org/elasticsearch/hadoop/mr/EsOutputFormat.java:185 | Without a task id and with at least two nodes, the pin as written indexes position -1 and fails. |
| ShardAssignment.PrePin | mr/src/main/java/org/elasticsearch/hadoop/mr/EsOutputFormat.java:183-185 | The corrected pin fails only on an empty node list and always picks a listed node. It agrees with the code whenever the code picks a node (every task id, and a single node without one), and picks the last node when there is no task id. |
| ShardAssignment.SortShards | mr/src/main/java/org/elasticsearch/hadoop/mr/EsOutputFormat.java:225-227 | Sorting the primary shards leaves them in order of shard number and holds exactly the same shards. |
| ShardAssignment.InsertLast | mr/src/main/java/org/elasticsearch/hadoop/mr/EsOutputFormat.java:227 | One insertion step extends the sorted prefix by one element and keeps the same shards. |
| ShardAssignment.SwapDown | mr/src/main/java/org/elasticsearch/hadoop/mr/EsOutputFormat.java:227 | Exchanging two neighbours keeps the same shards. |
| ShardAssignment.SortedPermutationUnique | mr/src/main/java/org/elasticsearch/hadoop/mr/EsOutputFormat.java:225-227 | Two sorted orders of the same shards with distinct shard numbers are the same sequence, so the sorted order does not depend on the input order. |
| ShardAssignment.KeysPerm | mr/src/main/java/org/elasticsearch/hadoop/mr/EsOutputFormat.java:225-226 | Reordering the entries of the target map reorders its key list in the same way. |
| ShardAssignment.Lookup | mr/src/main/java/org/elasticsearch/hadoop/mr/EsOutputFormat.java:238 | Looking up a shard finds a node mapped to it, and finds none exactly when the shard is not a key. It takes the first entry for the shard, which is the map's entry whenever shard numbers are distinct. |
| ShardAssignment.AssignShard | mr/src/main/java/org/elasticsearch/hadoop/mr/EsOutputFormat.java:219-243 | An empty target map is refused. Otherwise the shards are sorted, a non-positive instance becomes a random one in [1, N], and the shard at position `instance % N` and its mapped node are chosen. |
| ShardAssignment.OneNodePerShard | mr/src/main/java/org/elasticsearch/hadoop/mr/EsOutputFormat.java:238 | When shard numbers are distinct, a shard is mapped to a single node. |
| ShardAssignment.AssignmentDeterministic | mr/src/main/java/org/elasticsearch/hadoop/mr/EsOutputFormat.java:225-243 | For a positive task id, the chosen shard and node do not depend on the order in which the map lists its entries. |
| ShardAssignment.PickPatternNode | mr/src/main/java/org/elasticsearch/hadoop/mr/EsOutputFormat.java:255-258 | An index pattern pins a random listed node; an empty node list is refused. |
| RecordWriter.PinnedTo | mr/src/main/java/org/elasticsearch/hadoop/mr/EsOutputFormat.java:241-243 | Pinning to a node sets the pin to that node's address and HTTP port and changes nothing else. |
| RecordWriter.WriteBase | mr/src/main/java/org/elasticsearch/hadoop/mr/EsOutputFormat.java:213-217 | Discovery's resolution starts at request 2 iff the touch created the index (the health wait comes in between), and at request 1 otherwise. |
| RecordWriter.Touched | mr/src/main/java/org/elasticsearch/hadoop/mr/EsOutputFormat.java:213-217 | The touch step sends the touch request, then the health request only when the index was created. |
| RecordWriter.WriteTargets | mr/src/main/java/org/elasticsearch/hadoop/mr/EsOutputFormat.java:213-219 | The discovered primary shards are the retry policy's result over the three write attempts after the touch step: a map with between one and three attempts, or the volatile-cluster error. |
| RecordWriter.VolatileWriteCluster | mr/src/main/java/org/elasticsearch/hadoop/mr/EsOutputFormat.java:219 | Discovery fails with the volatile-cluster error exactly when all three write attempts are stale. |
| RecordWriter.FirstFreshWriteAttempt | mr/src/main/java/org/elasticsearch/hadoop/mr/EsOutputFormat.java:219 | A discovered map is the map of the first attempt that is not stale, and every attempt before it was stale. |
| RecordWriter.DiscoverOn | mr/src/main/java/org/elasticsearch/hadoop/mr/EsOutputFormat.java:213-220 | On a freshly opened session, discovery sends the touch step, then the resolution's fetches. On success it returns the discovered map and releases the session, so the client ends closed; on the volatile-cluster error the session stays open. Nothing else is sent. |
| RecordWriter.EsRecordWriter.constructor | mr/src/main/java/org/elasticsearch/hadoop/mr/EsOutputFormat.java:148-151 | A new writer is not initialized and has no session. |
| RecordWriter.EsRecordWriter.Open | mr/src/main/java/org/elasticsearch/hadoop/mr/EsOutputFormat.java:243 | Opening a session on settings without any resource is refused. Otherwise the writer holds a freshly opened session talking to the next client of the cluster. |
| RecordWriter.EsRecordWriter.Discover | mr/src/main/java/org/elasticsearch/hadoop/mr/EsOutputFormat.java:211-220 | Without a write resource discovery fails: the null reference, or the invalid configuration when there is no resource at all. Otherwise it opens the next session and its result is the discovered map of that client's cluster. On success the discovery client is closed and released, with exactly the touch step and the attempts' fetches sent; on the volatile-cluster error it is left open. |
| RecordWriter.EsRecordWriter.PinToAssignedShard | mr/src/main/java/org/elasticsearch/hadoop/mr/EsOutputFormat.java:222-243 | An empty shard map fails with the no-write-shards error. Otherwise the assignment is the sorted-bucket choice and the new session is pinned to its node. |
| RecordWriter.EsRecordWriter.InitSingleIndex | mr/src/main/java/org/elasticsearch/hadoop/mr/EsOutputFormat.java:206-248 | Without a write resource the missing-resource error. Otherwise the volatile-cluster error iff discovery finds no fresh attempt, with the discovery client left open; a discovered empty map fails with the no-write-shards error after the client is closed; success means the targets are the discovered map, the assignment is the sorted-bucket choice over them, and a second session is pinned to the assigned node. |
| RecordWriter.EsRecordWriter.InitMultiIndices | mr/src/main/java/org/elasticsearch/hadoop/mr/EsOutputFormat.java:250-266 | The index-pattern path succeeds iff there is a node and a resource, and then pins the session to some listed node. |
| RecordWriter.EsRecordWriter.Init | mr/src/main/java/org/elasticsearch/hadoop/mr/EsOutputFormat.java:162-204 | An empty node list fails with the divide-by-zero error. Otherwise discovery is pinned to the corrected pre-pin node, which is the code's node whenever the code picks one; then the pattern or single-index path runs. With a non-empty node list, the pattern path succeeds exactly when a read or write resource has text and otherwise fails with the configuration error; the single-index path has the single-index outcome. Success leaves a session that has sent nothing and buffers nothing; a failure is one of the paths' errors. |
| RecordWriter.EsRecordWriter.InitFor | mr/src/main/java/org/elasticsearch/hadoop/mr/EsOutputFormat.java:196-203 | The pattern path succeeds exactly when the node list is non-empty and a read or write resource has text; an empty node list fails with the no-nodes error and a missing resource with the configuration error; on success it pins a session to some listed node. The single-index path has the single-index outcome. Success leaves a session that has sent nothing. |
| RecordWriter.EsRecordWriter.Write | mr/src/main/java/org/elasticsearch/hadoop/mr/EsOutputFormat.java:154-160 | The first write since creation or close initializes once, even if initialization fails; a failed initialization's error is the write's. After a successful one, a null value fails with the no-data error and a present one has the write effect from the fresh session's empty state. Later writes go to the same session with its write effect, even once its client was released; with no session at all they raise a null reference. |
| RecordWriter.EsRecordWriter.DoClose | mr/src/main/java/org/elasticsearch/hadoop/mr/EsOutputFormat.java:289-304 | Closing closes the session with its close effect; without a client, pending untainted data or a due refresh fails with the null reference. Only a successful close lowers the initialized flag, so the next write initializes again. |
| SplitCodec.EncodeUTF | mr/src/main/java/org/elasticsearch/hadoop/mr/EsInputFormat.java:114-118 | A header field is its 2-byte length and its bytes; a field of 65536 bytes or more is refused. |
| SplitCodec.EncodeInt | mr/src/main/java/org/elasticsearch/hadoop/mr/EsInputFormat.java:115 | An int travels as four bytes. |
| SplitCodec.EncodeBlob | mr/src/main/java/org/elasticsearch/hadoop/mr/EsInputFormat.java:119-126 | A blob is a 4-byte length followed by exactly its bytes. |
| SplitCodec.Written | mr/src/main/java/org/elasticsearch/hadoop/mr/EsInputFormat.java:113-127 | A split whose header fields all fit serializes to its size: four 2-byte and three 4-byte prefixes plus the field bytes. |
| SplitCodec.EncodeSplit | mr/src/main/java/org/elasticsearch/hadoop/mr/EsInputFormat.java:113-127 | Serialization fails iff a header field is too long, and otherwise gives the full layout. |
| SplitCodec.DecodeUTF | mr/src/main/java/org/elasticsearch/hadoop/mr/EsInputFormat.java:131-135 | Reading a header field fails with end-of-stream iff the stream is shorter than its length prefix says. Otherwise it splits the stream into the field and the rest. |
| SplitCodec.DecodeInt | mr/src/main/java/org/elasticsearch/hadoop/mr/EsInputFormat.java:132 | Reading an int needs four bytes and consumes exactly four. |
| SplitCodec.DecodeBlob | mr/src/main/java/org/elasticsearch/hadoop/mr/EsInputFormat.java:137-144 | A blob with a negative length fails at allocation, a short one at the end of the stream; otherwise it consumes its prefix and exactly its bytes. |
| SplitCodec.DecodeSplit | mr/src/main/java/org/elasticsearch/hadoop/mr/EsInputFormat.java:130-145 | Reading a split fails only with end-of-stream or a negative blob length. |
| SplitCodec.UTFRoundTrip | mr/src/main/java/org/elasticsearch/hadoop/mr/EsInputFormat.java:113-135 | Reading a header field back from its encoding gives the field and leaves what followed. |
| SplitCodec.IntRoundTrip | mr/src/main/java/org/elasticsearch/hadoop/mr/EsInputFormat.java:113-132 | Reading an int back from its encoding gives the int, negative ones included. |
| SplitCodec.BlobRoundTrip | mr/src/main/java/org/elasticsearch/hadoop/mr/EsInputFormat.java:119-144 | Reading a blob back from its encoding gives the blob and leaves what followed. |
| SplitCodec.SplitRoundTrip | mr/src/main/java/org/elasticsearch/hadoop/mr/EsInputFormat.java:113-145 | `readFields` on what `write` produced restores all seven fields and leaves whatever followed the split unread. |
| SplitCodec.DecimalText | mr/src/main/java/org/elasticsearch/hadoop/mr/EsInputFormat.java:95 | A shard number's text is non-empty decimal digits without a leading zero. |
| SplitCodec.DecimalRoundTrip | mr/src/main/java/org/elasticsearch/hadoop/mr/EsInputFormat.java:95 | The shard id of a split denotes the shard it was made for. |
| SplitCodec.DataOutput.WriteUTF | mr/src/main/java/org/elasticsearch/hadoop/mr/EsInputFormat.java:114 | A header write appends the field's encoding, or refuses a too-long field before writing anything. |
| SplitCodec.DataInput.ReadFully | mr/src/main/java/org/elasticsearch/hadoop/mr/EsInputFormat.java:136-139 | `readFully` takes exactly the requested number of bytes, or fails at the end of the stream. |
| ShardSplit.ShardInputSplit.constructor | mr/src/main/java/org/elasticsearch/hadoop/mr/EsInputFormat.java:89-98 | A split keeps its node's address, port, id and name, the decimal text of its shard number, the mapping and the settings. |
| ShardSplit.ShardInputSplit.Empty | mr/src/main/java/org/elasticsearch/hadoop/mr/EsInputFormat.java:87 | The no-argument split has every field empty. |
| ShardSplit.ShardInputSplit.GetLength | mr/src/main/java/org/elasticsearch/hadoop/mr/EsInputFormat.java:101-104 | Every split reports the same nominal length, 1, whatever its shard holds. |
| ShardSplit.ShardInputSplit.GetLocations | mr/src/main/java/org/elasticsearch/hadoop/mr/EsInputFormat.java:107-110 | The only preferred location is the split's node address. |
| ShardSplit.ShardInputSplit.Write | mr/src/main/java/org/elasticsearch/hadoop/mr/EsInputFormat.java:113-127 | The stream gains exactly the split's layout. It fails with the too-long error iff a header field does not fit, after the fields before it were written. |
| ShardSplit.ShardInputSplit.WriteFromId | mr/src/main/java/org/elasticsearch/hadoop/mr/EsInputFormat.java:116-126 | From the node id on, the stream gains the rest of the layout, stopping at the first header field that does not fit. |
| ShardSplit.ShardInputSplit.ReadBlob | mr/src/main/java/org/elasticsearch/hadoop/mr/EsInputFormat.java:136-139 | Reading a blob from the stream agrees with the blob decoder, on success and on failure. |
| ShardSplit.ShardInputSplit.ReadHeader | mr/src/main/java/org/elasticsearch/hadoop/mr/EsInputFormat.java:131-135 | Reading the header agrees with the header decoder and leaves the mapping and settings as they were. |
| ShardSplit.ShardInputSplit.ReadNames | mr/src/main/java/org/elasticsearch/hadoop/mr/EsInputFormat.java:133-135 | Reading the node id, name and shard id agrees with their decoder and leaves the other fields alone. |
| ShardSplit.ShardInputSplit.ReadFields | mr/src/main/java/org/elasticsearch/hadoop/mr/EsInputFormat.java:130-145 | Reading a split succeeds iff the split decoder does. The fields are then the decoded ones and the stream sits right after them; a failure is the decoder's failure. |
| InputFormat.ReadBase | mr/src/main/java/org/elasticsearch/hadoop/rest/RestRepository.java:302-317 | Resolution starts at request 1 iff the cheap existence check said yes, otherwise after the mapping probe. |
| InputFormat.Probed | mr/src/main/java/org/elasticsearch/hadoop/mr/EsInputFormat.java:452 | The existence probes of `getSplits` are the cheap check, then a mapping request only when that check missed. |
| InputFormat.ReadTargets | mr/src/main/java/org/elasticsearch/hadoop/mr/EsInputFormat.java:452-471 | A missing index is no shards with missing-as-empty on and the missing-index error otherwise. An existing one is the retry policy's result, with at most three attempts. |
| InputFormat.SplitsFrom | mr/src/main/java/org/elasticsearch/hadoop/mr/EsInputFormat.java:476-501 | With no targets there are no splits and no mapping request. Otherwise the mapping is requested, a refused request fails, and the splits are built from the answer. A success always closes the session. |
| InputFormat.Plan | mr/src/main/java/org/elasticsearch/hadoop/mr/EsInputFormat.java:443-505 | `getSplits` as a value. Without a read resource it fails before sending anything. Every success, and the missing-index failure, closes the session. |
| InputFormat.MissingIndex | mr/src/main/java/org/elasticsearch/hadoop/mr/EsInputFormat.java:452-465 | A missing read index sends only the two existence probes and closes the session. It gives no splits iff missing-as-empty is on, and the missing-index error iff it is off. |
| InputFormat.VolatileCluster | mr/src/main/java/org/elasticsearch/hadoop/mr/EsInputFormat.java:466-467 | `getSplits` fails with the volatile-cluster error iff there is a read resource, the index exists and all three resolution attempts are stale. |
| InputFormat.OneSplitPerEntry | mr/src/main/java/org/elasticsearch/hadoop/mr/EsInputFormat.java:493-501 | A non-empty success has one split per entry of the first non-stale attempt. Split i carries entry i's node and shard number, and all splits share the fetched mapping and the job settings. |
| InputFormat.SplitsFromShape | mr/src/main/java/org/elasticsearch/hadoop/mr/EsInputFormat.java:476-501 | The end of `getSplits` succeeds iff there are no targets or the mapping request is answered. A success with targets sends the mapping request last. |
| InputFormat.MappingOnlyForTargets | mr/src/main/java/org/elasticsearch/hadoop/mr/EsInputFormat.java:477-478 | After the existence probes, a successful `getSplits` asks for the mapping iff it produces at least one split. |
| InputFormat.FindReadTargets | mr/src/main/java/org/elasticsearch/hadoop/mr/EsInputFormat.java:451-471 | The existence check and the resolution send exactly the planned requests and produce the planned targets or error. Only the missing-index error closes the session. |
| InputFormat.MakeSplits | mr/src/main/java/org/elasticsearch/hadoop/mr/EsInputFormat.java:493-501 | The array holds one fresh split per target, in order, each with that target's node, shard, the mapping and the settings. |
| InputFormat.BuildSplits | mr/src/main/java/org/elasticsearch/hadoop/mr/EsInputFormat.java:476-501 | The end of `getSplits` on the session sends, closes and returns exactly what the specification function plans. |
| InputFormat.GetSplits | mr/src/main/java/org/elasticsearch/hadoop/mr/EsInputFormat.java:443-505 | The method's outcome, its fresh splits, the requests its client sent and whether that client ends up closed all equal what `Plan` specifies. |
| InputFormat.ReaderSettings | mr/src/main/java/org/elasticsearch/hadoop/mr/EsInputFormat.java:197-201 | A reader's settings are pinned: to the split's node address and port, unless the settings already pinned a node, and otherwise unchanged. |
| InputFormat.OpenReader | mr/src/main/java/org/elasticsearch/hadoop/mr/EsInputFormat.java:195-247 | A reader opens a fresh session on its pinned settings, has read nothing and has no scroll yet. Settings with no resource are refused. |
| InputFormat.ShardRecordReader.constructor | mr/src/main/java/org/elasticsearch/hadoop/mr/EsInputFormat.java:195-247 | A reader starts over its split and session with no scroll and nothing read. |
| InputFormat.ShardRecordReader.BuildScroll | mr/src/main/java/org/elasticsearch/hadoop/mr/EsInputFormat.java:313-314 | Building the scroll sends one scan for the split's shard on the split's node, and the scroll holds the answer's documents and size. Without a usable session it fails and nothing changes. |
| InputFormat.ShardRecordReader.Next | mr/src/main/java/org/elasticsearch/hadoop/mr/EsInputFormat.java:307-337 | The first call builds the scroll. A call returns true iff documents remain; it then hands out the next document in server order through the key and value and counts it. On false nothing changes. |
| InputFormat.ShardRecordReader.Advance | mr/src/main/java/org/elasticsearch/hadoop/mr/EsInputFormat.java:321-336 | With the scroll open, the next document, if any, is handed out and counted; the records served so far are exactly the scroll's prefix. |
| InputFormat.ShardRecordReader.GetPos | mr/src/main/java/org/elasticsearch/hadoop/mr/EsInputFormat.java:364-366 | The position is the number of documents handed out so far. |
| InputFormat.ShardRecordReader.SetCurrentKey | mr/src/main/java/org/elasticsearch/hadoop/mr/EsInputFormat.java:400-405 | A present key takes the document id and is handed back; a null key is handed back as is. |
| InputFormat.ShardRecordReader.SetCurrentValue | mr/src/main/java/org/elasticsearch/hadoop/mr/EsInputFormat.java:409-416 | A present value ends up holding exactly the document's fields, with no entry from before; a null value is handed back as is. |
| InputFormat.MapWritable.PutAll | mr/src/main/java/org/elasticsearch/hadoop/mr/EsInputFormat.java:413 | Copying a map in keeps the old entries and lets the copied ones override them. |
| InputFormat.ShardRecordReader.Close | mr/src/main/java/org/elasticsearch/hadoop/mr/EsInputFormat.java:274-304 | Closing closes the scroll and the session when present, forgets both, and keeps the count of documents read. |

## Left out

- The HTTP transport (`RestClient`) is not part of this model. An oracle
  answers each request by number. It covers the answers of the cluster but
  not its timing.
- Transport failures of five requests are not modelled: the shard-layout
  fetch, the node-registry fetch, the existence check, the touch and the
  health wait always answer. In the source an exception from the shard-layout
  fetch ends the retry loop of `doGetTargetShards` at once, because only a
  stale snapshot is retried (RestRepository.java lines 220-228). An exception
  from the existence check, touch or health wait propagates and leaves the
  session open in `getSplits` and `initSingleIndex`. Failures of the bulk,
  the refresh and the mapping request are modelled.
- Statistics, heartbeats, progress reporting and logging are left out. They
  neither decide a branch nor change what is sent.
- `getProgress` is left out, because it computes a floating-point ratio.
- Settings loading, copying and saving are left out, and so is Base64 mapping
  serialization. `getSplits` takes the saved settings and a mapping
  serializer as parameters.
- The reader's settings are a parameter rather than the result of
  `loadFrom(cfg).copy().load(split.settings)`.
- Node discovery and version discovery (`discoverNodesIfNeeded`,
  `discoverEsVersion`) are left out. The node list is part of the settings.
- The bulk command's codec internals are left out. The codec is a function
  from a document to its fragment.
- Resolved shard maps are modelled as entry sequences in insertion order.
  Deduplication by `Shard.equals` is not modelled, because `Shard` is not
  part of this model. Determinism is stated under distinct shard numbers
  instead.
- The scroll's paging (`scan` followed by repeated `scroll` calls) is one
  reply holding all documents of the shard. Transport failures while
  scrolling are not modelled.
- `QueryBuilder`, `ScrollReader` and mapping deserialization are not part of
  this model.
- `validateMapping`, the output committers, `CompatHandler`, the
  `mapreduce`-API wrappers (`nextKeyValue`, `initialize`, `getCurrentKey`,
  `createKey`/`createValue`) and `putMapping` are left out. They either
  delegate to the modelled members or lie outside the core.
- The output format's own `init` / `checkOutputSpecs` (EsOutputFormat.java
  lines 335-365) are left out: they only load settings and discover nodes.
- Text is modelled as its already-encoded bytes. Java's modified UTF-8 and a
  null string in a split field are not modelled.
- InputFormat.ShardRecordReader.Next: a missing read resource on the
  reader's session surfaces as the null-reference error at the first `next`,
  standing in for the query builder's failure.
- ShardSplit.ShardInputSplit.ReadFields: a failed read leaves the fields and
  the stream position unspecified. The source assigns each field as soon as
  it is read and may consume part of the stream.
- InputFormat.ShardRecordReader.GetPos: the record count is an unbounded
  integer, with no 32-bit `int` overflow after 2^31 records.
- Repository.RestRepository.DoWriteToIndex: the entry count is an unbounded
  integer, with no overflow of the Java `int` counter.
- Repository.RestRepository.LazyInitWriting: the batch size in bytes is a
  natural number. A negative setting, which makes buffer allocation raise on
  the first write and leaves later writes without a bulk command, is not
  modelled.
- RecordWriter.EsRecordWriter.Init: the discovery pin uses the corrected
  `PrePin` (see Findings). Where the code as written raises an index error
  (no task id, two or more nodes), the model pins the last node and goes on.

## Findings

| source | as written | input that shows it | evidently intended | confidence | as-written member | corrected member |
|---|---|---|---|---|---|---|
| mr/src/main/java/org/elasticsearch/hadoop/mr/EsOutputFormat.java:185 | `nodes.get(currentInstance % nodes.size())` uses Java's truncating remainder, and a task without an id has instance -1 | no task id (instance -1) with two or more nodes: the index is -1 and `get` raises | a position in `[0, nodes.size())` for every instance, e.g. a floor remainder | not executed | ShardAssignment.NoTaskIdPrePinFails | ShardAssignment.PrePin |
