/**
 * Values shared by the write session, the topology resolver and the Hadoop
 * input/output formats: bytes, Java ints, nodes, shard copies, shard-to-node
 * entries, the configuration the core reads, and the failures it raises.
 */
module EsTypes {

  /** One byte of a Java byte array (kept unsigned). */
  type byte = x: int | 0 <= x < 256

  /** Text and payloads as the bytes that travel on the wire. */
  type Bytes = seq<byte>

  /** A Java `int`. */
  type int32 = x: int | -0x8000_0000 <= x < 0x8000_0000

  datatype Option<T> = None | Some(value: T)

  datatype Result<T> = Ok(value: T) | Err(error: Failure) {
    predicate IsFailure() {
      Err?
    }

    function PropagateFailure<U>(): Result<U>
      requires Err?
    {
      Err(error)
    }

    function Extract(): T
      requires Ok?
    {
      value
    }
  }

  datatype Outcome = Pass | Fail(error: Failure)

  /** The exceptions the core raises, one constructor per cause. */
  datatype Failure =
    | InvalidConfiguration   // neither a read nor a write resource is configured
    | NoData                 // a null object or a null/empty pre-serialized payload
    | BulkFailed             // the transport rejected a bulk request
    | RefreshFailed          // the transport rejected a refresh request
    | ClusterStateVolatile   // three resolution attempts found an unknown node id
    | NoWriteShards          // the write resource resolved to no primary shard
    | IndexMissing           // the read index is absent and missing-as-empty is off
    | InvalidRequest         // the cluster refused a mapping request
    | NoNodes                // a node had to be picked from an empty node list
    | NullReference          // a member was used on a released or absent object
    | UtfTooLong             // a header field of a split is 65536 bytes or longer
    | EndOfStream            // a split was read from a stream that ended early
    | NegativeArraySize      // a split blob carried a negative length prefix
    | DivideByZero           // a remainder was taken modulo an empty list's size
    | IndexOutOfBounds       // a list was indexed outside its range

  /** A cluster member as listed by the node registry. */
  datatype Node = Node(id: Bytes, name: Bytes, ipAddress: Bytes, httpPort: int32)

  /**
   * One copy of a shard inside a shard group of a topology snapshot: the shard
   * number (`name`), whether this copy is the primary, whether it is started,
   * and the id of the node holding it.
   */
  datatype ShardCopy = ShardCopy(name: nat, primary: bool, started: bool, nodeId: Bytes)

  /**
   * One entry of a shard-to-node map. The source's maps are insertion-ordered
   * hash maps; a map is modelled as its sequence of entries in insertion order.
   */
  datatype Entry = Entry(shard: ShardCopy, node: Node)

  /** The shard of every entry, in order (the key set of the map, in iteration order). */
  function Keys(entries: seq<Entry>): (ks: seq<ShardCopy>)
    ensures |ks| == |entries|
    ensures forall k :: 0 <= k < |entries| ==> ks[k] == entries[k].shard
  {
    seq(|entries|, k requires 0 <= k < |entries| => entries[k].shard)
  }

  /** Where a session is pinned: a declared "host:port" address, or an ip and a port. */
  datatype Pin = Address(address: Bytes) | IpPort(ip: Bytes, port: int32)

  /** The configuration values the core reads. */
  datatype Settings = Settings(
    resourceRead: Bytes,
    resourceWrite: Bytes,
    batchSizeInBytes: nat,
    batchSizeInEntries: int32,
    batchRefreshAfterWrite: bool,
    indexReadMissingAsEmpty: bool,
    nodes: seq<Bytes>,          // the discovered or declared node addresses
    pinned: Option<Pin>)

  /** Java's `Character.isWhitespace` on the ASCII range. */
  predicate IsWhitespace(b: byte) {
    b == 32 || 9 <= b <= 13 || 28 <= b <= 31
  }

  /** `StringUtils.hasText`: the text holds at least one non-whitespace byte. */
  predicate HasText(s: Bytes) {
    exists i :: 0 <= i < |s| && !IsWhitespace(s[i])
  }

  /** The bytes of all fragments, one after the other. */
  function Concat(fragments: seq<Bytes>): (r: Bytes)
    ensures fragments == [] ==> r == []
  {
    if fragments == [] then [] else Concat(fragments[..|fragments| - 1]) + fragments[|fragments| - 1]
  }
}
