/**
 * The HTTP transport, replaced by an oracle. A client answers its n-th request
 * with the oracle's value at n, so every behaviour of the cluster (a bulk that
 * fails, a topology that changes between fetches, a refused mapping request)
 * is some oracle, and what is proved holds for every oracle. Each client keeps
 * a ghost log of the requests it was asked to send.
 */
module Transport {
  import opened EsTypes

  /** A document returned by a scroll: its id and its source fields. */
  datatype Hit = Hit(id: Bytes, source: map<Bytes, Bytes>)

  /** The answer to a mapping request; an empty document is an empty mapping. */
  datatype MappingReply = Refused | Mapping(document: Bytes)

  /** The answer to a scan: the reported total size and the documents in server order. */
  datatype ScrollReply = ScrollReply(totalSize: int, hits: seq<Hit>)

  /** The cluster's answer to every request, by request number. */
  datatype Oracle = Oracle(
    fails: nat -> bool,                   // a bulk or refresh request that fails
    answer: nat -> bool,                  // the yes/no answer to exists, touch and health
    shards: nat -> seq<seq<ShardCopy>>,   // shard groups of a topology snapshot
    nodes: nat -> map<Bytes, Node>,       // the node registry, by node id
    mapping: nat -> MappingReply,
    scroll: nat -> ScrollReply)

  datatype Request =
    | Bulk(resource: Option<Bytes>, payload: Bytes)
    | Refresh(resource: Option<Bytes>)
    | TargetShards(index: Bytes)
    | GetNodes
    | Exists(target: Bytes)
    | GetMapping(target: Bytes)
    | Touch(index: Bytes)
    | Health(index: Bytes)
    | Scan(index: Bytes, shard: Bytes, node: Bytes)

  class RestClient {
    const oracle: Oracle
    /** The number of requests sent so far; the next answer is the oracle's at this number. */
    var requests: nat
    ghost var log: seq<Request>
    var closed: bool

    constructor (oracle: Oracle)
      ensures this.oracle == oracle && requests == 0 && log == [] && !closed
    {
      this.oracle := oracle;
      requests := 0;
      log := [];
      closed := false;
    }

    /** Sends the buffered fragments as one bulk request; false when the transport raised. */
    method Bulk(resource: Option<Bytes>, payload: Bytes) returns (ok: bool)
      modifies this
      ensures ok == !oracle.fails(old(requests))
      ensures requests == old(requests) + 1 && log == old(log) + [Request.Bulk(resource, payload)]
      ensures closed == old(closed)
    {
      ok := !oracle.fails(requests);
      requests := requests + 1;
      log := log + [Request.Bulk(resource, payload)];
    }

    method Refresh(resource: Option<Bytes>) returns (ok: bool)
      modifies this
      ensures ok == !oracle.fails(old(requests))
      ensures requests == old(requests) + 1 && log == old(log) + [Request.Refresh(resource)]
      ensures closed == old(closed)
    {
      ok := !oracle.fails(requests);
      requests := requests + 1;
      log := log + [Request.Refresh(resource)];
    }

    method TargetShards(index: Bytes) returns (groups: seq<seq<ShardCopy>>)
      modifies this
      ensures groups == oracle.shards(old(requests))
      ensures requests == old(requests) + 1 && log == old(log) + [Request.TargetShards(index)]
      ensures closed == old(closed)
    {
      groups := oracle.shards(requests);
      requests := requests + 1;
      log := log + [Request.TargetShards(index)];
    }

    method GetNodes() returns (nodes: map<Bytes, Node>)
      modifies this
      ensures nodes == oracle.nodes(old(requests))
      ensures requests == old(requests) + 1 && log == old(log) + [Request.GetNodes]
      ensures closed == old(closed)
    {
      nodes := oracle.nodes(requests);
      requests := requests + 1;
      log := log + [Request.GetNodes];
    }

    method Exists(resource: Bytes) returns (b: bool)
      modifies this
      ensures b == oracle.answer(old(requests))
      ensures requests == old(requests) + 1 && log == old(log) + [Request.Exists(resource)]
      ensures closed == old(closed)
    {
      b := oracle.answer(requests);
      requests := requests + 1;
      log := log + [Request.Exists(resource)];
    }

    method GetMapping(resource: Bytes) returns (m: MappingReply)
      modifies this
      ensures m == oracle.mapping(old(requests))
      ensures requests == old(requests) + 1 && log == old(log) + [Request.GetMapping(resource)]
      ensures closed == old(closed)
    {
      m := oracle.mapping(requests);
      requests := requests + 1;
      log := log + [Request.GetMapping(resource)];
    }

    method Touch(index: Bytes) returns (created: bool)
      modifies this
      ensures created == oracle.answer(old(requests))
      ensures requests == old(requests) + 1 && log == old(log) + [Request.Touch(index)]
      ensures closed == old(closed)
    {
      created := oracle.answer(requests);
      requests := requests + 1;
      log := log + [Request.Touch(index)];
    }

    method Health(index: Bytes) returns (timedOut: bool)
      modifies this
      ensures timedOut == oracle.answer(old(requests))
      ensures requests == old(requests) + 1 && log == old(log) + [Request.Health(index)]
      ensures closed == old(closed)
    {
      timedOut := oracle.answer(requests);
      requests := requests + 1;
      log := log + [Request.Health(index)];
    }

    /** Opens a scroll over one shard of the index, served by one node only. */
    method Scan(index: Bytes, shard: Bytes, node: Bytes) returns (reply: ScrollReply)
      modifies this
      ensures reply == oracle.scroll(old(requests))
      ensures requests == old(requests) + 1 && log == old(log) + [Request.Scan(index, shard, node)]
      ensures closed == old(closed)
    {
      reply := oracle.scroll(requests);
      requests := requests + 1;
      log := log + [Request.Scan(index, shard, node)];
    }

    /** Releases the connection; no request is sent. */
    method Close()
      modifies this
      ensures closed && requests == old(requests) && log == old(log)
    {
      closed := true;
    }
  }
}
