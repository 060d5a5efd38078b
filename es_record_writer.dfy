/**
 * `EsOutputFormat.EsRecordWriter`: a task's writer. The first `write` after
 * creation, or after a close, initializes it: pin a node for discovery, then
 * either pick a random node (index pattern) or find the primary shards, sort
 * them, pick the task's bucket and pin the node of that shard (single index);
 * every later `write` hands the record to the repository it opened.
 */
module RecordWriter {
  import opened EsTypes
  import opened Transport
  import opened Topology
  import opened Repository
  import opened ShardAssignment

  /** The number of the first topology request of discovery: after the touch, and after the health wait when the touch created the index. */
  function WriteBase(oracle: Oracle): (n: nat)
    ensures n == 2 <==> oracle.answer(0)
  {
    if oracle.answer(0) then 2 else 1
  }

  /** The requests of the touch step on a fresh client: the touch, then the health wait if the index was created. */
  function Touched(res: Bytes, oracle: Oracle): (sent: seq<Request>)
    ensures |sent| == WriteBase(oracle) && sent[0] == Request.Touch(res)
  {
    [Request.Touch(res)] + (if oracle.answer(0) then [Request.Health(res)] else [])
  }

  /**
   * The primary shards discovery settles on, with the number of resolution
   * attempts made: the retry policy over the three write attempts that follow
   * the touch step.
   */
  function WriteTargets(oracle: Oracle): (r: Result<(seq<Entry>, nat)>)
    ensures r.Err? ==> r.error == ClusterStateVolatile
    ensures r.Ok? ==> 1 <= r.value.1 <= 3
  {
    FirstResolved(Attempts(oracle, WriteBase(oracle), Write), 0)
  }

  /** Discovery fails with the volatile-cluster error exactly when all three write attempts see a stale snapshot. */
  lemma VolatileWriteCluster(oracle: Oracle)
    ensures WriteTargets(oracle).Err? <==> forall k :: 0 <= k < 3 ==> Attempt(oracle, WriteBase(oracle), k, Write).None?
  {
    var outcomes := Attempts(oracle, WriteBase(oracle), Write);
    assert forall k :: 0 <= k < 3 ==> outcomes[k] == Attempt(oracle, WriteBase(oracle), k, Write);
  }

  /** When discovery settles on some attempt, that attempt resolved and every earlier one was stale. */
  lemma FirstFreshWriteAttempt(oracle: Oracle)
    requires WriteTargets(oracle).Ok?
    ensures var (found, attempts) := WriteTargets(oracle).value;
            && Attempt(oracle, WriteBase(oracle), attempts - 1, Write) == Some(found)
            && forall j :: 0 <= j < attempts - 1 ==> Attempt(oracle, WriteBase(oracle), j, Write).None?
  {
    var outcomes := Attempts(oracle, WriteBase(oracle), Write);
    assert forall k :: 0 <= k < 3 ==> outcomes[k] == Attempt(oracle, WriteBase(oracle), k, Write);
  }

  /** The settings of a session pinned to the HTTP address of a node. */
  function PinnedTo(s: Settings, node: Node): (p: Settings)
    ensures p.pinned == Some(IpPort(node.ipAddress, node.httpPort))
    ensures p.resourceRead == s.resourceRead && p.resourceWrite == s.resourceWrite && p.nodes == s.nodes
  {
    s.(pinned := Some(IpPort(node.ipAddress, node.httpPort)))
  }

  /**
   * Discovery on a freshly opened session: touch the write index, wait for it
   * if it was created, resolve the primary shards, then release the session.
   */
  method DiscoverOn(repo: RestRepository) returns (r: Result<seq<Entry>>)
    requires repo.Valid() && repo.resourceW.Some? && repo.client != null && repo.Opened(repo.settings, repo.client.oracle)
    modifies repo.Repr
    ensures repo.Valid()
    ensures var c := old(repo.client);
            var o := c.oracle;
            var t := WriteTargets(o);
            var res := repo.resourceW.value;
            && (r.Ok? <==> t.Ok?)
            && (r.Ok? ==> && r.value == t.value.0 && repo.client == null && c.closed
                          && c.log == Touched(res, o) + Fetches(res, t.value.1))
            && (r.Err? ==> && r.error == t.error && repo.client == c && !c.closed
                           && c.log == Touched(res, o) + Fetches(res, 3))
  {
    var created := repo.Touch();
    if created {
      var timedOut := repo.WaitForYellow();
    }
    assert repo.client.requests == WriteBase(repo.client.oracle);
    assert repo.client.log == Touched(repo.resourceW.value, repo.client.oracle);
    ghost var attempts;
    r, attempts := repo.GetWriteTargetPrimaryShards();
    if r.Err? {
      return;
    }
    var released := repo.Close();
  }

  class EsRecordWriter {
    /** The job configuration's settings, with the discovered or declared nodes. */
    const settings: Settings
    /** The task id the configuration carries, if any. */
    const taskId: Option<nat>
    /** Whether the write resource is an index pattern (decided by the index extractor). */
    const resourceIsPattern: bool
    const codec: Document -> Bytes
    /** The cluster as seen by the n-th client this writer opens. */
    const cluster: nat -> Oracle

    var initialized: bool
    var repository: RestRepository?
    /** The number of repositories opened so far. */
    var sessions: nat
    ghost var Repr: set<object>

    /** The number of initializations so far. */
    ghost var inits: nat
    /** The settings of the last discovery session (the node pinned before the shards are known). */
    ghost var discovery: Option<Settings>
    /** The last primary-shard map and the assignment taken from it. */
    ghost var targets: seq<Entry>
    ghost var assignment: Option<Assignment>
    /** The client of the last discovery session. */
    ghost var probe: RestClient?
    /** The outcome of the last initialization a write started. */
    ghost var lastInit: Outcome

    ghost predicate Valid()
      reads this, Repr
    {
      && this in Repr
      && (repository != null ==>
            && repository in Repr && repository.Repr <= Repr && this !in repository.Repr
            && repository.Valid() && repository.codec == codec)
    }

    constructor (settings: Settings, taskId: Option<nat>, resourceIsPattern: bool,
                 codec: Document -> Bytes, cluster: nat -> Oracle)
      ensures Valid() && fresh(Repr)
      ensures this.settings == settings && this.taskId == taskId && this.resourceIsPattern == resourceIsPattern
      ensures this.codec == codec && this.cluster == cluster
      ensures !initialized && repository == null && sessions == 0 && inits == 0
    {
      this.settings := settings;
      this.taskId := taskId;
      this.resourceIsPattern := resourceIsPattern;
      this.codec := codec;
      this.cluster := cluster;
      initialized := false;
      repository := null;
      sessions := 0;
      Repr := {this};
      inits := 0;
      discovery := None;
      targets := [];
      assignment := None;
      probe := null;
      lastInit := Pass;
    }

    /** Opens a session for the settings with the next client of the cluster. */
    method Open(s: Settings) returns (r: Result<RestRepository>)
      requires Valid()
      modifies this
      ensures Valid() && fresh(Repr - old(Repr))
      ensures r.Err? <==> !(HasText(s.resourceRead) || HasText(s.resourceWrite))
      ensures r.Err? ==> r.error == InvalidConfiguration && repository == old(repository) && sessions == old(sessions)
      ensures r.Ok? ==> && repository == r.value && fresh(r.value.Repr) && sessions == old(sessions) + 1
                        && r.value.Opened(s, cluster(old(sessions))) && r.value.codec == codec
      ensures initialized == old(initialized) && inits == old(inits)
      ensures discovery == old(discovery) && targets == old(targets) && assignment == old(assignment)
      ensures probe == old(probe)
    {
      r := Create(s, codec, cluster(sessions));
      if r.Ok? {
        repository := r.value;
        sessions := sessions + 1;
        Repr := Repr + r.value.Repr;
      }
    }

    /**
     * The discovery half of `initSingleIndex`: open a session, create the index
     * if needed (and wait for it), find the primary shards, release the
     * session. A failed resolution raises before the release.
     */
    method Discover(s: Settings) returns (r: Result<seq<Entry>>)
      requires Valid()
      modifies this
      ensures Valid() && fresh(Repr - old(Repr))
      ensures initialized == old(initialized) && inits == old(inits)
      ensures discovery == old(discovery) && targets == old(targets) && assignment == old(assignment)
      ensures !HasText(s.resourceWrite) ==>
                r == Err(if HasText(s.resourceRead) then NullReference else InvalidConfiguration)
      ensures HasText(s.resourceWrite) ==>
        var o := cluster(old(sessions));
        var t := WriteTargets(o);
        && sessions == old(sessions) + 1 && repository != null && fresh(repository.Repr)
        && probe != null && fresh(probe) && probe.oracle == o
        && (r.Ok? <==> t.Ok?)
        && (r.Ok? ==> && r.value == t.value.0 && repository.client == null && probe.closed
                      && probe.log == Touched(s.resourceWrite, o) + Fetches(s.resourceWrite, t.value.1))
        && (r.Err? ==> && r.error == t.error && repository.client == probe && !probe.closed
                       && probe.log == Touched(s.resourceWrite, o) + Fetches(s.resourceWrite, 3))
    {
      var first := Open(s);
      if first.Err? {
        return Err(first.error);
      }
      var repo := first.value;
      probe := repo.client;
      if repo.resourceW.None? {
        return Err(NullReference);
      }
      r := DiscoverOn(repo);
    }

    /**
     * The outcome of `initSingleIndex` for settings `s`, when `before` sessions
     * were opened before it started.
     */
    ghost predicate SingleIndexInit(s: Settings, instance: int, before: nat, r: Outcome)
      reads this`sessions, this`targets, this`assignment, this`probe, this`repository
      reads probe, repository, if repository == null then {} else {repository.client}
    {
      && (!HasText(s.resourceWrite) ==>
            r == Fail(if HasText(s.resourceRead) then NullReference else InvalidConfiguration))
      && (HasText(s.resourceWrite) ==>
            var t := WriteTargets(cluster(before));
            && probe != null && probe.oracle == cluster(before)
            && (t.Err? ==> r == Fail(t.error) && !probe.closed)
            && (t.Ok? ==> && probe.closed && (r.Fail? <==> t.value.0 == [])
                          && (r.Fail? ==> r.error == NoWriteShards))
            && (r.Pass? ==>
                  && t.Ok? && sessions == before + 2 && repository != null
                  && targets == t.value.0 && assignment.Some? && Assigned(targets, instance, assignment.value)
                  && repository.Opened(PinnedTo(s, assignment.value.node), cluster(before + 1))))
    }

    /** The outcome of a successful `initMultiIndices` for settings `s`: a session pinned to some listed node. */
    ghost predicate PatternInit(s: Settings, before: nat)
      reads this`repository, repository, if repository == null then {} else {repository.client}
    {
      && repository != null
      && exists i :: 0 <= i < |s.nodes| && repository.Opened(s.(pinned := Some(Address(s.nodes[i]))), cluster(before))
    }

    /**
     * `initSingleIndex`: discover the primary shards, then pin a new session to
     * the node of the shard assigned to this instance.
     */
    method InitSingleIndex(s: Settings, instance: int) returns (r: Outcome)
      requires Valid()
      modifies this
      ensures Valid() && fresh(Repr - old(Repr))
      ensures initialized == old(initialized) && inits == old(inits) && discovery == old(discovery)
      ensures r.Pass? ==> repository != null && fresh(repository.Repr)
      ensures HasText(s.resourceWrite) ==> probe != null && fresh(probe)
      ensures SingleIndexInit(s, instance, old(sessions), r)
    {
      var found := Discover(s);
      if found.Err? {
        return Fail(found.error);
      }
      r := PinToAssignedShard(s, found.value, instance);
    }

    /** The assignment half of `initSingleIndex`: choose the shard, then open a session pinned to its node. */
    method PinToAssignedShard(s: Settings, found: seq<Entry>, instance: int) returns (r: Outcome)
      requires Valid() && HasText(s.resourceWrite)
      modifies this
      ensures Valid() && fresh(Repr - old(Repr))
      ensures initialized == old(initialized) && inits == old(inits) && discovery == old(discovery)
      ensures probe == old(probe)
      ensures r.Fail? <==> found == []
      ensures r.Fail? ==> r.error == NoWriteShards
      ensures r.Pass? ==>
        && sessions == old(sessions) + 1 && repository != null && fresh(repository.Repr)
        && targets == found && assignment.Some? && Assigned(found, instance, assignment.value)
        && repository.Opened(PinnedTo(s, assignment.value.node), cluster(old(sessions)))
    {
      var chosen := AssignShard(found, instance);
      if chosen.Err? {
        return Fail(chosen.error);
      }
      targets := found;
      assignment := Some(chosen.value);
      var second := Open(PinnedTo(s, chosen.value.node));
      r := Pass;
    }

    /**
     * `initMultiIndices`: the target index is not known before a record is
     * seen, so the session is pinned to a random node of the list.
     */
    method InitMultiIndices(s: Settings) returns (r: Outcome)
      requires Valid()
      modifies this
      ensures Valid() && fresh(Repr - old(Repr))
      ensures initialized == old(initialized) && inits == old(inits) && discovery == old(discovery)
      ensures r.Pass? <==> s.nodes != [] && (HasText(s.resourceRead) || HasText(s.resourceWrite))
      ensures s.nodes == [] ==> r == Fail(NoNodes)
      ensures r.Fail? && s.nodes != [] ==> r.error == InvalidConfiguration
      ensures r.Pass? ==> && repository != null && fresh(repository.Repr) && sessions == old(sessions) + 1
                          && repository.client != null && PatternInit(s, old(sessions))
    {
      var pick := PickPatternNode(s.nodes);
      if pick.Err? {
        return Fail(pick.error);
      }
      var session := Open(s.(pinned := Some(Address(s.nodes[pick.value]))));
      if session.Err? {
        return Fail(session.error);
      }
      r := Pass;
    }

    /**
     * `init`: pin the node at position `instance % |nodes|` for discovery, then
     * take the index-pattern or the single-index path. A successful
     * initialization leaves a session that has sent nothing and buffers nothing.
     */
    method Init() returns (r: Outcome)
      requires Valid()
      modifies this
      ensures Valid() && fresh(Repr - old(Repr))
      ensures initialized == old(initialized) && inits == old(inits) + 1
      ensures r.Pass? ==> && repository != null && fresh(repository.Repr) && !repository.writeInitialized
                          && repository.client != null && repository.Snapshot() == FreshSession
      ensures r.Fail? ==> r.error in {DivideByZero, NoNodes, InvalidConfiguration, NullReference,
                                      ClusterStateVolatile, NoWriteShards}
      ensures var instance := DetectCurrentInstance(taskId);
        && (settings.nodes == [] ==> r == Fail(DivideByZero))
        && (settings.nodes != [] ==>
              discovery == Some(settings.(pinned := Some(Address(PrePin(settings.nodes, instance).value)))))
        && (PrePinAsWritten(settings.nodes, instance).Ok? ==>
              discovery == Some(settings.(pinned := Some(Address(PrePinAsWritten(settings.nodes, instance).value)))))
        && (resourceIsPattern && settings.nodes != [] ==>
              && (r.Pass? <==> HasText(settings.resourceRead) || HasText(settings.resourceWrite))
              && (r.Fail? ==> r.error == InvalidConfiguration))
        && (r.Pass? && resourceIsPattern ==> PatternInit(discovery.value, old(sessions)))
        && (settings.nodes != [] && !resourceIsPattern ==> SingleIndexInit(discovery.value, instance, old(sessions), r))
    {
      inits := inits + 1;
      var instance := DetectCurrentInstance(taskId);
      var pin := PrePin(settings.nodes, instance);
      if pin.Err? {
        return Fail(pin.error);
      }
      var s := settings.(pinned := Some(Address(pin.value)));
      discovery := Some(s);
      r := InitFor(s, instance);
    }

    /** The second half of `init`: the index-pattern or the single-index path, from the discovery settings `s`. */
    method InitFor(s: Settings, instance: int) returns (r: Outcome)
      requires Valid()
      modifies this
      ensures Valid() && fresh(Repr - old(Repr))
      ensures initialized == old(initialized) && inits == old(inits) && discovery == old(discovery)
      ensures r.Pass? ==> && repository != null && fresh(repository.Repr) && !repository.writeInitialized
                          && repository.client != null && repository.Snapshot() == FreshSession
      ensures r.Fail? ==> r.error in {NoNodes, InvalidConfiguration, NullReference, ClusterStateVolatile, NoWriteShards}
      ensures resourceIsPattern ==>
                && (r.Pass? <==> s.nodes != [] && (HasText(s.resourceRead) || HasText(s.resourceWrite)))
                && (s.nodes == [] ==> r == Fail(NoNodes))
                && (r.Fail? && s.nodes != [] ==> r.error == InvalidConfiguration)
      ensures r.Pass? && resourceIsPattern ==> PatternInit(s, old(sessions))
      ensures !resourceIsPattern ==> SingleIndexInit(s, instance, old(sessions), r)
    {
      if resourceIsPattern {
        r := InitMultiIndices(s);
      } else {
        r := InitSingleIndex(s, instance);
      }
    }

    /**
     * `write`: initialize on the first call since creation or since the last
     * close (the flag is raised before initializing, so a failed
     * initialization is not retried), then hand the record to the session,
     * even one whose client a failed initialization or close released.
     */
    method Write(value: Option<Document>) returns (r: Outcome)
      requires Valid()
      modifies Repr
      ensures Valid() && fresh(Repr - old(Repr)) && initialized
      ensures inits == old(inits) + (if old(initialized) then 0 else 1)
      ensures old(initialized) ==> repository == old(repository) && sessions == old(sessions)
      ensures old(initialized) && repository == null ==> r == Fail(NullReference)
      ensures old(initialized) && repository != null ==>
                && repository.client == old(repository.client)
                && (value.None? ==> r == Fail(NoData) && repository.Snapshot() == old(repository.Snapshot()))
                && (value.Some? ==> repository.WroteFrom(old(repository.Snapshot()), codec(value.value), r))
      ensures old(initialized) ==> lastInit == old(lastInit)
      ensures !old(initialized) && lastInit.Fail? ==>
                && r == lastInit
                && r.error in {DivideByZero, NoNodes, InvalidConfiguration, NullReference, ClusterStateVolatile, NoWriteShards}
                && (settings.nodes == [] ==> r == Fail(DivideByZero))
      ensures !old(initialized) && lastInit.Pass? ==>
                && repository != null && fresh(repository.Repr) && repository.client != null
                && (value.None? ==> r == Fail(NoData) && repository.Snapshot() == FreshSession)
                && (value.Some? ==> repository.WroteFrom(FreshSession, codec(value.value), r))
    {
      if initialized {
        if repository == null {
          return Fail(NullReference);
        }
        r := repository.WriteToIndex(value);
        return;
      }
      initialized := true;
      r := Init();
      lastInit := r;
      if r.Fail? {
        return;
      }
      r := repository.WriteToIndex(value);
    }

    /**
     * `doClose`: close the session, if any, then lower the flag so that the
     * next write initializes again. A failing close raises before the flag is
     * lowered.
     */
    method DoClose() returns (r: Outcome)
      requires Valid()
      modifies Repr
      ensures Valid() && Repr == old(Repr) && repository == old(repository)
      ensures r.Pass? ==> !initialized
      ensures r.Fail? ==> initialized == old(initialized)
      ensures repository == null ==> r == Pass
      ensures repository != null && old(repository.client) != null ==>
                repository.CloseEffect(old(repository.client), r)
      ensures repository != null && old(repository.client) == null ==>
                && (r.Pass? <==> && !(|repository.data| > 0 && !repository.hadWriteErrors)
                                 && !(repository.requiresRefreshAfterBulk && repository.executedBulkWrite))
                && (r.Fail? ==> r.error == NullReference)
    {
      if repository != null {
        r := repository.Close();
        if r.Fail? {
          return;
        }
      }
      initialized := false;
      r := Pass;
    }
  }
}
