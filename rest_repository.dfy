/**
 * `RestRepository`: one task's session with the cluster. Its write side is a
 * buffer of serialized bulk fragments with a byte capacity and an entry
 * threshold, flushed as one bulk request; a failed flush taints the session and
 * a tainted session's remaining data is never sent at close time. Its topology
 * side resolves shards to nodes, retrying a stale snapshot at most three times.
 */
module Repository {
  import opened EsTypes
  import opened Transport
  import opened Topology

  /** A record handed to `writeToIndex`; the bulk codec turns it into one fragment. */
  datatype Document = Document(fields: map<Bytes, Bytes>)

  /** `BytesArray.available()`: the room left in the buffer, never negative. */
  function AvailableIn(capacity: nat, data: Bytes): (n: nat)
    ensures n + |data| >= capacity
    ensures |data| <= capacity ==> n == capacity - |data|
  {
    if |data| <= capacity then capacity - |data| else 0
  }

  /** The requests of `attempts` resolution attempts: a shard-layout fetch, then a node-registry fetch, each time. */
  function Fetches(index: Bytes, attempts: nat): (log: seq<Request>)
    ensures |log| == 2 * attempts
  {
    if attempts == 0 then [] else Fetches(index, attempts - 1) + [Request.TargetShards(index), Request.GetNodes]
  }

  /** The outcome of resolution attempt k of a retry loop whose first request has number `base`. */
  function Attempt(oracle: Oracle, base: nat, k: nat, role: Role): Option<seq<Entry>> {
    Resolve(oracle.shards(base + 2 * k), oracle.nodes(base + 2 * k + 1), role)
  }

  /**
   * The retry policy of `getReadTargetShards` and `getWriteTargetPrimaryShards` over the outcomes of its
   * attempts: the first of attempts k, k+1, ... that resolves, with the number
   * of attempts made.
   */
  function FirstResolved(outcomes: seq<Option<seq<Entry>>>, k: nat): (r: Result<(seq<Entry>, nat)>)
    requires k <= |outcomes|
    decreases |outcomes| - k
    ensures r.Ok? ==> && k < r.value.1 <= |outcomes|
                      && outcomes[r.value.1 - 1] == Some(r.value.0)
                      && forall j :: k <= j < r.value.1 - 1 ==> outcomes[j].None?
    ensures r.Err? <==> forall j :: k <= j < |outcomes| ==> outcomes[j].None?
    ensures r.Err? ==> r.error == ClusterStateVolatile
  {
    if k == |outcomes| then Err(ClusterStateVolatile)
    else match outcomes[k]
      case Some(targets) => Ok((targets, k + 1))
      case None => FirstResolved(outcomes, k + 1)
  }

  /** A retry loop that stopped at attempt k resolved what the first-resolving attempt gives. */
  lemma FirstResolvedIsRetryOutcome(outcomes: seq<Option<seq<Entry>>>, k: nat, targets: seq<Entry>)
    requires k < |outcomes| && outcomes[k] == Some(targets)
    requires forall j :: 0 <= j < k ==> outcomes[j].None?
    ensures FirstResolved(outcomes, 0) == Ok((targets, k + 1))
  {
  }

  /** The outcomes of the three resolution attempts of one retry loop whose first request has number `base`. */
  function Attempts(oracle: Oracle, base: nat, role: Role): (outcomes: seq<Option<seq<Entry>>>)
    ensures |outcomes| == 3
  {
    [Attempt(oracle, base, 0, role), Attempt(oracle, base, 1, role), Attempt(oracle, base, 2, role)]
  }

  /** A mapping reply that shows the resource exists: a mapping that is not empty. */
  predicate NonEmptyMapping(m: MappingReply) {
    m.Mapping? && |m.document| > 0
  }

  /**
   * What one write reads and changes: the client's request count and log (0
   * and empty once the client is released) and the buffer.
   */
  datatype WriteState = WriteState(requests: nat, log: seq<Request>, data: Bytes, pending: seq<Bytes>,
                                   accepted: seq<Bytes>, hadWriteErrors: bool, executedBulkWrite: bool)

  /** The write state of a session that has just been opened. */
  const FreshSession := WriteState(0, [], [], [], [], false, false)

  class RestRepository {
    const settings: Settings
    const resourceR: Option<Bytes>
    const resourceW: Option<Bytes>
    /** The bulk codec (`BulkCommand.write`), chosen from the settings. */
    const codec: Document -> Bytes
    var client: RestClient?
    ghost const Repr: set<object>

    /** The byte capacity of the buffer: 0 until writing is initialized. */
    var capacity: nat
    /** The bytes buffered since the last successful flush. */
    var data: Bytes
    var dataEntries: int
    var bufferEntriesThreshold: int
    var requiresRefreshAfterBulk: bool
    var executedBulkWrite: bool
    var writeInitialized: bool
    var hadWriteErrors: bool

    /** The fragments behind `data`, in the order they were appended. */
    ghost var pending: seq<Bytes>
    /** Every fragment ever appended, in order. */
    ghost var accepted: seq<Bytes>
    /** The fragments of acknowledged bulk requests, in order. */
    ghost var delivered: seq<Bytes>

    /** Everything the session keeps true, except the entry bound that a write restores by flushing. */
    ghost predicate Coherent()
      reads this
    {
      && this in Repr
      && (client != null ==> client in Repr)
      && data == Concat(pending)
      && dataEntries == |pending|
      && accepted == delivered + pending
      && (!writeInitialized ==>
            && capacity == 0 && bufferEntriesThreshold == 0 && !requiresRefreshAfterBulk
            && !executedBulkWrite && accepted == [] && delivered == [])
      && (writeInitialized ==>
            && capacity == settings.batchSizeInBytes
            && bufferEntriesThreshold == settings.batchSizeInEntries
            && requiresRefreshAfterBulk == settings.batchRefreshAfterWrite)
    }

    ghost predicate Valid()
      reads this
    {
      && Coherent()
      && (bufferEntriesThreshold > 0 && !hadWriteErrors && client != null ==> dataEntries < bufferEntriesThreshold)
    }

    function Available(): nat
      reads this
    {
      AvailableIn(capacity, data)
    }

    /** The state right after construction, talking to a fresh client of the given oracle. */
    ghost predicate Opened(settings: Settings, oracle: Oracle)
      reads this, client
    {
      && this.settings == settings
      && resourceR == (if HasText(settings.resourceRead) then Some(settings.resourceRead) else None)
      && resourceW == (if HasText(settings.resourceWrite) then Some(settings.resourceWrite) else None)
      && client != null && client.oracle == oracle && client.requests == 0 && client.log == [] && !client.closed
      && !writeInitialized && !hadWriteErrors && !executedBulkWrite
      && data == [] && dataEntries == 0 && accepted == [] && pending == []
      && Snapshot() == FreshSession
    }

    constructor (settings: Settings, codec: Document -> Bytes, oracle: Oracle)
      requires HasText(settings.resourceRead) || HasText(settings.resourceWrite)
      ensures Valid() && fresh(Repr) && Opened(settings, oracle) && this.codec == codec
    {
      this.settings := settings;
      this.codec := codec;
      resourceR := if HasText(settings.resourceRead) then Some(settings.resourceRead) else None;
      resourceW := if HasText(settings.resourceWrite) then Some(settings.resourceWrite) else None;
      var c := new RestClient(oracle);
      client := c;
      Repr := {this, c};
      capacity, data, dataEntries := 0, [], 0;
      bufferEntriesThreshold := 0;
      requiresRefreshAfterBulk, executedBulkWrite, writeInitialized, hadWriteErrors := false, false, false, false;
      pending, accepted, delivered := [], [], [];
    }

    /** The settings of the write side never change once initialized. */
    twostate predicate ConfigUnchanged()
      reads this
    {
      && writeInitialized == old(writeInitialized)
      && capacity == old(capacity)
      && bufferEntriesThreshold == old(bufferEntriesThreshold)
      && requiresRefreshAfterBulk == old(requiresRefreshAfterBulk)
    }

    /** Write-side initialization (buffer capacity, entry threshold, refresh flag) happens once. */
    method LazyInitWriting()
      requires Valid()
      modifies this
      ensures Valid() && writeInitialized
      ensures old(writeInitialized) ==> unchanged(this)
      ensures client == old(client) && data == old(data) && pending == old(pending)
      ensures accepted == old(accepted) && delivered == old(delivered)
      ensures hadWriteErrors == old(hadWriteErrors) && executedBulkWrite == old(executedBulkWrite)
    {
      if !writeInitialized {
        writeInitialized := true;
        capacity := settings.batchSizeInBytes;
        data := [];
        bufferEntriesThreshold := settings.batchSizeInEntries;
        requiresRefreshAfterBulk := settings.batchRefreshAfterWrite;
      }
    }

    /** The current write state. */
    ghost function Snapshot(): WriteState
      reads this, client
    {
      WriteState(if client == null then 0 else client.requests, if client == null then [] else client.log,
                 data, pending, accepted, hadWriteErrors, executedBulkWrite)
    }

    /**
     * One bulk request with everything buffered. Success empties the buffer and
     * records that a bulk write happened; a refused request taints the session
     * and keeps the buffer as it was. Without a client the call raises a null
     * reference, which is not the failure the taint is set for, and changes nothing.
     */
    method SendBatch() returns (r: Outcome)
      requires Coherent() && writeInitialized
      modifies Repr
      ensures Valid() && client == old(client) && ConfigUnchanged() && accepted == old(accepted)
      ensures client == null ==> r == Fail(NullReference) && unchanged(this)
      ensures client != null ==> && client.requests == old(client.requests) + 1
                                 && client.log == old(client.log) + [Request.Bulk(resourceW, old(data))]
                                 && client.closed == old(client.closed)
                                 && (r.Pass? <==> !client.oracle.fails(old(client.requests)))
      ensures r.Pass? ==> && data == [] && pending == [] && dataEntries == 0 && executedBulkWrite
                          && hadWriteErrors == old(hadWriteErrors) && delivered == old(delivered) + old(pending)
      ensures client != null && r.Fail? ==> && r.error == BulkFailed && hadWriteErrors
                                            && data == old(data) && pending == old(pending) && delivered == old(delivered)
                                            && executedBulkWrite == old(executedBulkWrite)
    {
      if client == null {
        return Fail(NullReference);
      }
      var ok := client.Bulk(resourceW, data);
      if !ok {
        hadWriteErrors := true;
        return Fail(BulkFailed);
      }
      data := [];
      delivered := delivered + pending;
      pending := [];
      dataEntries := 0;
      executedBulkWrite := true;
      r := Pass;
    }

    /**
     * What writing one fragment does (`doWriteToIndex`), from the write state
     * `s`: a fragment longer than the room left first flushes the buffer,
     * exactly once; then the fragment is appended after the buffered ones;
     * then, if an entry threshold is set and reached, the buffer is flushed
     * again. Without a client every flush raises a null reference and leaves
     * the buffer and the taint as they were.
     */
    ghost predicate WroteFrom(s: WriteState, payload: Bytes, r: Outcome)
      reads this, client
    {
      var overflow := |payload| > AvailableIn(capacity, s.data);
      var kept := if overflow then [] else s.pending;
      var due := bufferEntriesThreshold > 0 && |kept| + 1 >= bufferEntriesThreshold;
      if client == null then
        && hadWriteErrors == s.hadWriteErrors && executedBulkWrite == s.executedBulkWrite
        && (if overflow then r == Fail(NullReference) && pending == s.pending && accepted == s.accepted
            else && pending == s.pending + [payload] && accepted == s.accepted + [payload]
                 && (r.Pass? <==> !due) && (r.Fail? ==> r.error == NullReference))
      else
        var n0 := s.requests;
        var earlyFail := overflow && client.oracle.fails(n0);
        var n1 := if overflow then n0 + 1 else n0;
        var firstFlush := if overflow then [Request.Bulk(resourceW, s.data)] else [];
        if earlyFail then
          && r == Fail(BulkFailed)
          && client.log == s.log + firstFlush && client.requests == n1
          && pending == s.pending && accepted == s.accepted
          && hadWriteErrors && executedBulkWrite == s.executedBulkWrite
        else
          && accepted == s.accepted + [payload]
          && client.log == s.log + firstFlush
                           + (if due then [Request.Bulk(resourceW, Concat(kept + [payload]))] else [])
          && client.requests == (if due then n1 + 1 else n1)
          && (r.Pass? <==> !due || !client.oracle.fails(n1))
          && (r.Fail? ==> r.error == BulkFailed)
          && pending == (if due && r.Pass? then [] else kept + [payload])
          && hadWriteErrors == (s.hadWriteErrors || r.Fail?)
          && executedBulkWrite == (s.executedBulkWrite || overflow || (due && r.Pass?))
    }

    /** Appends one fragment after the buffered ones and counts it (`copyFrom`, `dataEntries++`). */
    method AppendFragment(payload: Bytes)
      requires Coherent() && writeInitialized
      modifies this
      ensures Coherent() && ConfigUnchanged()
      ensures data == old(data) + payload && dataEntries == old(dataEntries) + 1
      ensures pending == old(pending) + [payload] && accepted == old(accepted) + [payload]
      ensures client == old(client) && delivered == old(delivered)
      ensures hadWriteErrors == old(hadWriteErrors) && executedBulkWrite == old(executedBulkWrite)
    {
      assert (pending + [payload])[..|pending|] == pending;
      data := data + payload;
      pending := pending + [payload];
      accepted := accepted + [payload];
      dataEntries := dataEntries + 1;
    }

    /** The space check of `doWriteToIndex`: flush first when the fragment does not fit. */
    method MakeRoomFor(payload: Bytes) returns (r: Outcome)
      requires Valid() && writeInitialized
      modifies Repr
      ensures Valid() && client == old(client) && ConfigUnchanged() && accepted == old(accepted)
      ensures client == null ==> && unchanged(this)
                                 && (r.Pass? <==> |payload| <= AvailableIn(capacity, data))
                                 && (r.Fail? ==> r.error == NullReference)
      ensures client != null ==>
        var overflow := |payload| > AvailableIn(capacity, old(data));
        && client.closed == old(client.closed)
        && client.requests == old(client.requests) + (if overflow then 1 else 0)
        && client.log == old(client.log) + (if overflow then [Request.Bulk(resourceW, old(data))] else [])
        && (r.Pass? <==> !overflow || !client.oracle.fails(old(client.requests)))
        && (r.Pass? ==> && pending == (if overflow then [] else old(pending))
                        && hadWriteErrors == old(hadWriteErrors)
                        && executedBulkWrite == (old(executedBulkWrite) || overflow))
        && (r.Fail? ==> && r == Fail(BulkFailed) && pending == old(pending) && hadWriteErrors
                        && executedBulkWrite == old(executedBulkWrite))
    {
      r := Pass;
      if |payload| > Available() {
        r := SendBatch();
      }
    }

    /** The append and entry-threshold check of `doWriteToIndex`. */
    method AppendAndCheck(payload: Bytes) returns (r: Outcome)
      requires Valid() && writeInitialized
      modifies Repr
      ensures Valid() && client == old(client) && ConfigUnchanged()
      ensures accepted == old(accepted) + [payload]
      ensures var due := bufferEntriesThreshold > 0 && |old(pending)| + 1 >= bufferEntriesThreshold;
        client == null ==>
          && (r.Pass? <==> !due) && (r.Fail? ==> r.error == NullReference)
          && pending == old(pending) + [payload]
          && hadWriteErrors == old(hadWriteErrors) && executedBulkWrite == old(executedBulkWrite)
      ensures var due := bufferEntriesThreshold > 0 && |old(pending)| + 1 >= bufferEntriesThreshold;
        client != null ==>
          && client.closed == old(client.closed)
          && client.requests == old(client.requests) + (if due then 1 else 0)
          && client.log == old(client.log)
                           + (if due then [Request.Bulk(resourceW, Concat(old(pending) + [payload]))] else [])
          && (r.Pass? <==> !due || !client.oracle.fails(old(client.requests)))
          && (r.Fail? ==> r.error == BulkFailed)
          && pending == (if due && r.Pass? then [] else old(pending) + [payload])
          && hadWriteErrors == (old(hadWriteErrors) || r.Fail?)
          && executedBulkWrite == (old(executedBulkWrite) || (due && r.Pass?))
      ensures r.Pass? && bufferEntriesThreshold > 0 ==> dataEntries < bufferEntriesThreshold
    {
      AppendFragment(payload);
      if bufferEntriesThreshold > 0 && dataEntries >= bufferEntriesThreshold {
        r := SendBatch();
      } else {
        r := Pass;
      }
    }

    method DoWriteToIndex(payload: Bytes) returns (r: Outcome)
      requires Valid() && writeInitialized
      modifies Repr
      ensures Valid() && client == old(client) && ConfigUnchanged()
      ensures client != null ==> client.closed == old(client.closed)
      ensures WroteFrom(old(Snapshot()), payload, r)
      ensures r.Pass? && bufferEntriesThreshold > 0 ==> dataEntries < bufferEntriesThreshold
    {
      ghost var s := Snapshot();
      ghost var overflow := |payload| > AvailableIn(capacity, s.data);
      r := MakeRoomFor(payload);
      if r.Fail? {
        return;
      }
      assert pending == (if overflow then [] else s.pending);
      r := AppendAndCheck(payload);
    }

    /**
     * `writeToIndex`: a null record is refused before anything changes. A
     * session whose client was released still buffers; only a flush needs the client.
     */
    method WriteToIndex(record: Option<Document>) returns (r: Outcome)
      requires Valid()
      modifies Repr
      ensures Valid() && client == old(client)
      ensures client != null ==> client.closed == old(client.closed)
      ensures record.None? ==> r == Fail(NoData) && unchanged(this) && Snapshot() == old(Snapshot())
      ensures record.Some? ==> writeInitialized && WroteFrom(old(Snapshot()), codec(record.value), r)
    {
      if record.None? {
        return Fail(NoData);
      }
      LazyInitWriting();
      assert Snapshot() == old(Snapshot());
      r := DoWriteToIndex(codec(record.value));
    }

    /** `writeProcessedToIndex`: a null or empty payload is refused before anything changes. */
    method WriteProcessedToIndex(ba: Option<Bytes>) returns (r: Outcome)
      requires Valid()
      modifies Repr
      ensures Valid() && client == old(client)
      ensures client != null ==> client.closed == old(client.closed)
      ensures (ba.None? || |ba.value| == 0) ==> r == Fail(NoData) && unchanged(this) && Snapshot() == old(Snapshot())
      ensures ba.Some? && |ba.value| > 0 ==> writeInitialized && WroteFrom(old(Snapshot()), ba.value, r)
    {
      if ba.None? || |ba.value| == 0 {
        return Fail(NoData);
      }
      LazyInitWriting();
      assert Snapshot() == old(Snapshot());
      r := DoWriteToIndex(ba.value);
    }

    /**
     * What `close` does with a live client: flush once if data is buffered and
     * the session is not tainted; refresh if configured and some bulk write
     * succeeded; then release the client. Nothing runs after a failure.
     */
    twostate predicate CloseEffect(c: RestClient, r: Outcome)
      reads this, c
    {
      var flush := |old(data)| > 0 && !old(hadWriteErrors);
      var n0 := old(c.requests);
      var flushFailed := flush && c.oracle.fails(n0);
      var refresh := !flushFailed && requiresRefreshAfterBulk && (old(executedBulkWrite) || flush);
      var n1 := if flush then n0 + 1 else n0;
      && c.log == old(c.log) + (if flush then [Request.Bulk(resourceW, old(data))] else [])
                             + (if refresh then [Request.Refresh(resourceW)] else [])
      && (r.Pass? <==> !flushFailed && !(refresh && c.oracle.fails(n1)))
      && (r.Pass? ==> client == null && c.closed)
      && (r.Fail? ==> && client == c && c.closed == old(c.closed)
                      && r.error == (if flushFailed then BulkFailed else RefreshFailed))
      && (flush && !flushFailed ==> data == [] && pending == [])
      && (!flush ==> data == old(data) && pending == old(pending))
      && hadWriteErrors == (old(hadWriteErrors) || flushFailed)
    }

    method Close() returns (r: Outcome)
      requires Valid()
      modifies Repr
      ensures Valid() && ConfigUnchanged() && accepted == old(accepted)
      ensures old(client) != null ==> CloseEffect(old(client), r)
      ensures old(client) == null ==> unchanged(this)
      ensures old(client) == null ==>
                (r.Pass? <==> !(|data| > 0 && !hadWriteErrors) && !(requiresRefreshAfterBulk && executedBulkWrite))
      ensures old(client) == null && r.Fail? ==> r.error == NullReference
    {
      if |data| > 0 {
        if !hadWriteErrors {
          r := SendBatch();
          if r.Fail? {
            return;
          }
        }
      }
      if requiresRefreshAfterBulk && executedBulkWrite {
        if client == null {
          return Fail(NullReference);
        }
        var ok := client.Refresh(resourceW);
        if !ok {
          return Fail(RefreshFailed);
        }
      }
      if client != null {
        client.Close();
        client := null;
      }
      r := Pass;
    }

    /** One resolution attempt (`doGetReadTargetShards` / `doGetWriteTargetPrimaryShards`). */
    method DoGetTargetShards(role: Role) returns (r: Option<seq<Entry>>)
      requires Valid() && client != null
      requires role.Read? ==> resourceR.Some?
      requires role.Write? ==> resourceW.Some?
      modifies client
      ensures client.requests == old(client.requests) + 2 && client.closed == old(client.closed)
      ensures client.log == old(client.log) + Fetches(IndexOf(role), 1)
      ensures r == Attempt(client.oracle, old(client.requests), 0, role)
    {
      var info := client.TargetShards(IndexOf(role));
      var nodes := client.GetNodes();
      r := SelectTargets(info, nodes, role);
    }

    /** The index a role resolves: the read resource's for reads, the write resource's for writes. */
    function IndexOf(role: Role): Bytes
      reads this
      requires role.Read? ==> resourceR.Some?
      requires role.Write? ==> resourceW.Some?
    {
      if role.Read? then resourceR.value else resourceW.value
    }

    /**
     * The retry policy: the first attempt that is not stale wins; three stale
     * attempts in a row raise the volatile-cluster error.
     */
    twostate predicate RetryOutcome(c: RestClient, role: Role, new r: Result<seq<Entry>>)
      reads this, c
      requires role.Read? ==> resourceR.Some?
      requires role.Write? ==> resourceW.Some?
    {
      var base := old(c.requests);
      && (r.Err? <==> forall k :: 0 <= k < 3 ==> Attempt(c.oracle, base, k, role).None?)
      && (r.Err? ==> && r.error == ClusterStateVolatile && c.requests == base + 6
                     && c.log == old(c.log) + Fetches(IndexOf(role), 3))
      && (r.Ok? ==> exists k :: && 0 <= k < 3
                                && Attempt(c.oracle, base, k, role) == Some(r.value)
                                && (forall j :: 0 <= j < k ==> Attempt(c.oracle, base, j, role).None?)
                                && c.requests == base + 2 * (k + 1)
                                && c.log == old(c.log) + Fetches(IndexOf(role), k + 1))
    }

    method GetTargetShards(role: Role) returns (r: Result<seq<Entry>>)
      requires Valid() && client != null
      requires role.Read? ==> resourceR.Some?
      requires role.Write? ==> resourceW.Some?
      modifies client
      ensures client.closed == old(client.closed)
      ensures RetryOutcome(client, role, r)
    {
      ghost var base := client.requests;
      for retries := 0 to 3
        invariant client.requests == base + 2 * retries && client.closed == old(client.closed)
        invariant client.log == old(client.log) + Fetches(IndexOf(role), retries)
        invariant forall j :: 0 <= j < retries ==> Attempt(client.oracle, base, j, role).None?
      {
        var m := DoGetTargetShards(role);
        if m.Some? {
          r := Ok(m.value);
          assert && Attempt(client.oracle, base, retries, role) == Some(r.value)
                 && client.requests == base + 2 * (retries + 1)
                 && client.log == old(client.log) + Fetches(IndexOf(role), retries + 1);
          assert !forall k :: 0 <= k < 3 ==> Attempt(client.oracle, base, k, role).None?;
          return;
        }
      }
      r := Err(ClusterStateVolatile);
    }

    /**
     * The retry loop as the policy function sees it: the targets of the first
     * attempt that resolves, the number of attempts made, and the requests sent.
     */
    twostate predicate Resolved(c: RestClient, role: Role, new r: Result<seq<Entry>>, attempts: nat)
      reads this, c
      requires role.Read? ==> resourceR.Some?
      requires role.Write? ==> resourceW.Some?
    {
      var outcome := FirstResolved(Attempts(c.oracle, old(c.requests), role), 0);
      && c.closed == old(c.closed)
      && (r.Ok? ==> && outcome == Ok((r.value, attempts))
                    && c.log == old(c.log) + Fetches(IndexOf(role), attempts)
                    && c.requests == old(c.requests) + 2 * attempts)
      && (r.Err? ==> && outcome.Err? && r.error == outcome.error
                     && c.log == old(c.log) + Fetches(IndexOf(role), 3))
    }

    /** Runs the retry loop and names the attempt it stopped at. */
    method ResolveTargets(role: Role) returns (r: Result<seq<Entry>>, ghost attempts: nat)
      requires Valid() && client != null
      requires role.Read? ==> resourceR.Some?
      requires role.Write? ==> resourceW.Some?
      modifies client
      ensures Resolved(client, role, r, attempts)
    {
      ghost var base := client.requests;
      ghost var outcomes := Attempts(client.oracle, base, role);
      assert forall j :: 0 <= j < 3 ==> outcomes[j] == Attempt(client.oracle, base, j, role);
      attempts := 3;
      r := GetTargetShards(role);
      if r.Ok? {
        ghost var k :| && 0 <= k < 3
                       && Attempt(client.oracle, base, k, role) == Some(r.value)
                       && (forall j :: 0 <= j < k ==> Attempt(client.oracle, base, j, role).None?)
                       && client.requests == base + 2 * (k + 1)
                       && client.log == old(client.log) + Fetches(IndexOf(role), k + 1);
        FirstResolvedIsRetryOutcome(outcomes, k, r.value);
        attempts := k + 1;
      }
    }

    method GetReadTargetShards() returns (r: Result<seq<Entry>>, ghost attempts: nat)
      requires Valid() && client != null && resourceR.Some?
      modifies client
      ensures Resolved(client, Read, r, attempts)
    {
      r, attempts := ResolveTargets(Read);
    }

    method GetWriteTargetPrimaryShards() returns (r: Result<seq<Entry>>, ghost attempts: nat)
      requires Valid() && client != null && resourceW.Some?
      modifies client
      ensures Resolved(client, Write, r, attempts)
    {
      r, attempts := ResolveTargets(Write);
    }

    /**
     * `indexExists`: an existence check; for a read resource that is not found,
     * a second chance through a non-empty mapping, a refused mapping request
     * counting as absent.
     */
    method IndexExists(read: bool) returns (found: bool)
      requires Valid() && client != null
      requires read ==> resourceR.Some?
      requires !read ==> resourceW.Some?
      modifies client
      ensures client.closed == old(client.closed)
      ensures var n := old(client.requests);
              var res := if read then resourceR.value else resourceW.value;
              var cheap := client.oracle.answer(n);
              && found == (cheap || (read && NonEmptyMapping(client.oracle.mapping(n + 1))))
              && client.requests == n + (if !cheap && read then 2 else 1)
              && client.log == old(client.log) + [Request.Exists(res)]
                               + (if !cheap && read then [Request.GetMapping(res)] else [])
    {
      var res := if read then resourceR.value else resourceW.value;
      found := client.Exists(res);
      if !found && read {
        var m := client.GetMapping(res);
        found := m.Mapping? && |m.document| > 0;
      }
    }

    /** `getMapping` of the read resource; a refused request raises. */
    method GetMapping() returns (r: Result<Bytes>)
      requires Valid() && client != null && resourceR.Some?
      modifies client
      ensures client.closed == old(client.closed)
      ensures client.requests == old(client.requests) + 1
      ensures client.log == old(client.log) + [Request.GetMapping(resourceR.value)]
      ensures var m := client.oracle.mapping(old(client.requests));
              && (m.Refused? ==> r == Err(InvalidRequest))
              && (m.Mapping? ==> r == Ok(m.document))
    {
      var m := client.GetMapping(resourceR.value);
      if m.Refused? {
        return Err(InvalidRequest);
      }
      r := Ok(m.document);
    }

    /** Creates the write index if missing; true when it was created. */
    method Touch() returns (created: bool)
      requires Valid() && client != null && resourceW.Some?
      modifies client
      ensures client.closed == old(client.closed)
      ensures client.requests == old(client.requests) + 1 && created == client.oracle.answer(old(client.requests))
      ensures client.log == old(client.log) + [Request.Touch(resourceW.value)]
    {
      created := client.Touch(resourceW.value);
    }

    /** Waits for the write index to reach yellow health; true on a time-out. */
    method WaitForYellow() returns (timedOut: bool)
      requires Valid() && client != null && resourceW.Some?
      modifies client
      ensures client.closed == old(client.closed)
      ensures client.requests == old(client.requests) + 1 && timedOut == client.oracle.answer(old(client.requests))
      ensures client.log == old(client.log) + [Request.Health(resourceW.value)]
    {
      timedOut := client.Health(resourceW.value);
    }

    /** Opens a scroll over one shard of the read resource, restricted to one node. */
    method Scan(shard: Bytes, node: Bytes) returns (reply: ScrollReply)
      requires Valid() && client != null && resourceR.Some?
      modifies client
      ensures client.closed == old(client.closed)
      ensures reply == client.oracle.scroll(old(client.requests)) && client.requests == old(client.requests) + 1
      ensures client.log == old(client.log) + [Request.Scan(resourceR.value, shard, node)]
    {
      reply := client.Scan(resourceR.value, shard, node);
    }
  }

  /**
   * The constructor's guard: a configuration naming neither a read nor a write
   * resource is refused, and no client is opened for it.
   */
  method Create(settings: Settings, codec: Document -> Bytes, oracle: Oracle) returns (r: Result<RestRepository>)
    ensures r.Err? <==> !(HasText(settings.resourceRead) || HasText(settings.resourceWrite))
    ensures r.Err? ==> r.error == InvalidConfiguration
    ensures r.Ok? ==> && fresh(r.value.Repr) && r.value.Valid() && r.value.Opened(settings, oracle)
                      && r.value.codec == codec
  {
    if !(HasText(settings.resourceRead) || HasText(settings.resourceWrite)) {
      return Err(InvalidConfiguration);
    }
    var repo := new RestRepository(settings, codec, oracle);
    r := Ok(repo);
  }
}
