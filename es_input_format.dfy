/**
 * `EsInputFormat`: the read side of the Hadoop integration. `getSplits`
 * plans one split per shard of the read index, each naming the node that
 * serves it; a `ShardRecordReader` then streams one split's documents through
 * a scroll, counting the records it hands out.
 */
module InputFormat {
  import opened EsTypes
  import opened Transport
  import opened Topology
  import opened Repository
  import opened SplitCodec
  import opened ShardSplit

  /** The number of the first topology request of `getSplits`: after the existence check, and after the mapping probe when the check missed. */
  function ReadBase(oracle: Oracle): (n: nat)
    ensures n == 1 <==> oracle.answer(0)
  {
    if oracle.answer(0) then 1 else 2
  }

  /** The outcomes of the three read resolution attempts `getSplits` may make. */
  function ReadAttempts(oracle: Oracle): (outcomes: seq<Option<seq<Entry>>>)
    ensures |outcomes| == 3
  {
    Attempts(oracle, ReadBase(oracle), Read)
  }

  /** The requests of `indexExists(true)` on a fresh client: the cheap check, then the mapping probe if it missed. */
  function Probed(res: Bytes, oracle: Oracle): (sent: seq<Request>)
    ensures |sent| == ReadBase(oracle) && sent[0] == Request.Exists(res)
  {
    [Request.Exists(res)] + (if oracle.answer(0) then [] else [Request.GetMapping(res)])
  }

  /**
   * The shard-to-node entries `getSplits` works on, with the number of
   * resolution attempts made: a missing index is empty with missing-as-empty
   * on and an error otherwise.
   */
  function ReadTargets(settings: Settings, oracle: Oracle): (r: Result<(seq<Entry>, nat)>)
    ensures r.Ok? ==> r.value.1 <= 3
    ensures r.Err? ==> r.error == IndexMissing || r.error == ClusterStateVolatile
  {
    var found := oracle.answer(0) || NonEmptyMapping(oracle.mapping(1));
    if !found then
      if settings.indexReadMissingAsEmpty then Ok(([], 0)) else Err(IndexMissing)
    else
      FirstResolved(ReadAttempts(oracle), 0)
  }

  /** The split planned for one shard-to-node entry. */
  function SplitFor(e: Entry, mapping: JavaBytes, settings: JavaBytes): SplitFields {
    SplitFields(e.node.ipAddress, e.node.httpPort, e.node.id, e.node.name, DecimalText(e.shard.name), mapping, settings)
  }

  function SplitsFor(targets: seq<Entry>, mapping: JavaBytes, settings: JavaBytes): seq<SplitFields> {
    seq(|targets|, i requires 0 <= i < |targets| => SplitFor(targets[i], mapping, settings))
  }

  /** What `getSplits` does, as a value: its outcome, the requests it sends, and whether it closes its client. */
  datatype Planning = Planning(outcome: Result<seq<SplitFields>>, sent: seq<Request>, closed: bool)

  /** The end of `getSplits` once the targets are known and `sent` went out: the mapping, if any target, then the splits. */
  function SplitsFrom(res: Bytes, oracle: Oracle, targets: seq<Entry>, sent: seq<Request>,
                      savedSettings: JavaBytes, saveMapping: Bytes -> JavaBytes): (p: Planning)
    ensures p.outcome.Ok? ==> p.closed
  {
    if targets == [] then
      Planning(Ok([]), sent, true)
    else
      var m := oracle.mapping(|sent|);
      if m.Refused? then
        Planning(Err(InvalidRequest), sent + [Request.GetMapping(res)], false)
      else
        Planning(Ok(SplitsFor(targets, saveMapping(m.document), savedSettings)), sent + [Request.GetMapping(res)], true)
  }

  /**
   * `getSplits` against a cluster that answers as `oracle`. `savedSettings`
   * is the serialized job configuration; `saveMapping` serializes a mapping
   * document.
   */
  function Plan(settings: Settings, oracle: Oracle, savedSettings: JavaBytes, saveMapping: Bytes -> JavaBytes): (p: Planning)
    ensures p.outcome.Ok? ==> p.closed
    ensures p.outcome == Err(IndexMissing) ==> p.closed
    ensures !HasText(settings.resourceRead) ==> p.outcome.Err? && p.sent == []
  {
    if !HasText(settings.resourceRead) then
      Planning(Err(if HasText(settings.resourceWrite) then NullReference else InvalidConfiguration), [], false)
    else
      var res := settings.resourceRead;
      match ReadTargets(settings, oracle)
      case Err(e) =>
        Planning(Err(e), Probed(res, oracle) + (if e == ClusterStateVolatile then Fetches(res, 3) else []), e == IndexMissing)
      case Ok((targets, attempts)) =>
        SplitsFrom(res, oracle, targets, Probed(res, oracle) + Fetches(res, attempts), savedSettings, saveMapping)
  }

  /**
   * A missing read index: with missing-as-empty on, no split and no error;
   * otherwise the missing-index error. Either way the client is closed after
   * the two existence probes and nothing else is sent.
   */
  lemma MissingIndex(settings: Settings, oracle: Oracle, savedSettings: JavaBytes, saveMapping: Bytes -> JavaBytes)
    requires HasText(settings.resourceRead)
    requires !oracle.answer(0) && !NonEmptyMapping(oracle.mapping(1))
    ensures var p := Plan(settings, oracle, savedSettings, saveMapping);
            && p.closed
            && p.sent == [Request.Exists(settings.resourceRead), Request.GetMapping(settings.resourceRead)]
            && (settings.indexReadMissingAsEmpty <==> p.outcome == Ok([]))
            && (!settings.indexReadMissingAsEmpty <==> p.outcome == Err(IndexMissing))
  {
    assert Fetches(settings.resourceRead, 0) == [];
  }

  /** Three stale snapshots in a row, and only that, make `getSplits` fail with the volatile-cluster error. */
  lemma VolatileCluster(settings: Settings, oracle: Oracle, savedSettings: JavaBytes, saveMapping: Bytes -> JavaBytes)
    ensures Plan(settings, oracle, savedSettings, saveMapping).outcome == Err(ClusterStateVolatile)
            <==> && HasText(settings.resourceRead)
                 && (oracle.answer(0) || NonEmptyMapping(oracle.mapping(1)))
                 && forall k :: 0 <= k < 3 ==> ReadAttempts(oracle)[k].None?
  {
  }

  /**
   * The splits follow the resolved targets one to one: the first resolution
   * attempt that is not stale gives the shard-to-node entries, and split i
   * carries the address, port, id and name of entry i's node and the number of
   * its shard. All splits share one mapping, the one answered to the last
   * request, and the job settings.
   */
  lemma OneSplitPerEntry(settings: Settings, oracle: Oracle, savedSettings: JavaBytes, saveMapping: Bytes -> JavaBytes)
    ensures var p := Plan(settings, oracle, savedSettings, saveMapping);
            p.outcome.Ok? && p.outcome.value != [] ==>
              && HasText(settings.resourceRead)
              && oracle.mapping(|p.sent| - 1).Mapping?
              && exists k: nat ::
                   && k < 3
                   && ReadAttempts(oracle)[k].Some?
                   && (forall j :: 0 <= j < k ==> ReadAttempts(oracle)[j].None?)
                   && |ReadAttempts(oracle)[k].value| == |p.outcome.value|
                   && forall i :: 0 <= i < |p.outcome.value| ==>
                        p.outcome.value[i]
                        == SplitFor(ReadAttempts(oracle)[k].value[i],
                                    saveMapping(oracle.mapping(|p.sent| - 1).document), savedSettings)
  {
    var p := Plan(settings, oracle, savedSettings, saveMapping);
    if p.outcome.Ok? && p.outcome.value != [] {
      var res := settings.resourceRead;
      var t := ReadTargets(settings, oracle);
      var targets, attempts := t.value.0, t.value.1;
      var sent := Probed(res, oracle) + Fetches(res, attempts);
      SplitsFromShape(res, oracle, targets, sent, savedSettings, saveMapping);
      assert |p.sent| - 1 == |sent|;
      var outcomes := ReadAttempts(oracle);
      assert t == FirstResolved(outcomes, 0);
      var k := attempts - 1;
      assert outcomes[k] == Some(targets);
      assert p.outcome.value == SplitsFor(targets, saveMapping(oracle.mapping(|sent|).document), savedSettings);
    }
  }

  /** A successful end of `getSplits` with targets asked for the mapping last and built one split per target from it. */
  lemma SplitsFromShape(res: Bytes, oracle: Oracle, targets: seq<Entry>, sent: seq<Request>,
                        savedSettings: JavaBytes, saveMapping: Bytes -> JavaBytes)
    ensures var p := SplitsFrom(res, oracle, targets, sent, savedSettings, saveMapping);
            (p.outcome.Ok? <==> targets == [] || oracle.mapping(|sent|).Mapping?)
            && (p.outcome.Ok? && targets != [] ==>
                  && p.sent == sent + [Request.GetMapping(res)]
                  && p.outcome.value == SplitsFor(targets, saveMapping(oracle.mapping(|sent|).document), savedSettings))
            && (targets == [] ==> p == Planning(Ok([]), sent, true))
  {
  }

  lemma {:induction false} NoMappingRequestInFetches(index: Bytes, attempts: nat, target: Bytes)
    ensures Request.GetMapping(target) !in Fetches(index, attempts)
  {
    if attempts > 0 {
      NoMappingRequestInFetches(index, attempts - 1, target);
    }
  }

  /**
   * After the existence check, the mapping is requested exactly when there is
   * at least one target shard, so a successful plan holds splits iff it asked
   * for the mapping.
   */
  lemma MappingOnlyForTargets(settings: Settings, oracle: Oracle, savedSettings: JavaBytes, saveMapping: Bytes -> JavaBytes)
    requires HasText(settings.resourceRead)
    ensures var p := Plan(settings, oracle, savedSettings, saveMapping);
            p.outcome.Ok? ==>
              && ReadBase(oracle) <= |p.sent|
              && (Request.GetMapping(settings.resourceRead) in p.sent[ReadBase(oracle)..] <==> p.outcome.value != [])
  {
    var p := Plan(settings, oracle, savedSettings, saveMapping);
    var res := settings.resourceRead;
    if p.outcome.Ok? {
      var t := ReadTargets(settings, oracle);
      var targets, attempts := t.value.0, t.value.1;
      var probed := Probed(res, oracle);
      var fetches := Fetches(res, attempts);
      NoMappingRequestInFetches(res, attempts, res);
      if targets == [] {
        assert p.sent == probed + fetches;
        assert p.sent[ReadBase(oracle)..] == fetches;
      } else {
        assert p.sent == probed + fetches + [Request.GetMapping(res)];
        assert p.sent[ReadBase(oracle)..] == fetches + [Request.GetMapping(res)];
      }
    }
  }

  /** The bulk codec of a session that never writes. */
  function NoBulk(d: Document): Bytes {
    []
  }

  /**
   * The `indexExists` / `getReadTargetShards` part of `getSplits` on a fresh
   * session; a missing index that is not read as empty closes the session.
   */
  method FindReadTargets(repo: RestRepository) returns (r: Result<seq<Entry>>, ghost attempts: nat)
    requires repo.Valid() && repo.client != null && !repo.writeInitialized
    requires HasText(repo.settings.resourceRead) && repo.resourceR == Some(repo.settings.resourceRead)
    requires repo.client.requests == 0 && repo.client.log == [] && !repo.client.closed
    modifies repo.Repr
    ensures repo.Valid() && !repo.writeInitialized
    ensures var c := old(repo.client);
            var res := repo.settings.resourceRead;
            var t := ReadTargets(repo.settings, c.oracle);
            && (r.Ok? ==> && t == Ok((r.value, attempts)) && unchanged(repo) && !c.closed
                          && c.log == Probed(res, c.oracle) + Fetches(res, attempts) && c.requests == |c.log|)
            && (r.Err? ==> && t == Err(r.error) && c.closed == (r.error == IndexMissing)
                           && c.log == Probed(res, c.oracle) + (if r.error == ClusterStateVolatile then Fetches(res, 3) else []))
  {
    ghost var c := repo.client;
    ghost var res := repo.settings.resourceRead;
    attempts := 0;
    var found := repo.IndexExists(true);
    assert c.log == Probed(res, c.oracle);
    if !found {
      if repo.settings.indexReadMissingAsEmpty {
        assert Fetches(res, 0) == [];
        return Ok([]), attempts;
      }
      var closing := repo.Close();
      assert c.log == Probed(res, c.oracle) + [];
      return Err(IndexMissing), attempts;
    }
    r, attempts := repo.GetReadTargetShards();
  }

  /** The splits of `targets`, all sharing one mapping and the job settings. */
  method MakeSplits(targets: seq<Entry>, mapping: JavaBytes, settings: JavaBytes) returns (splits: array<ShardInputSplit?>)
    ensures fresh(splits) && splits.Length == |targets|
    ensures forall i :: 0 <= i < splits.Length ==>
              splits[i] != null && fresh(splits[i]) && splits[i].Fields() == SplitFor(targets[i], mapping, settings)
  {
    splits := new ShardInputSplit?[|targets|];
    for index := 0 to |targets|
      invariant forall i :: 0 <= i < index ==>
                  splits[i] != null && fresh(splits[i]) && splits[i].Fields() == SplitFor(targets[i], mapping, settings)
    {
      var e := targets[index];
      splits[index] := new ShardInputSplit(e.node.ipAddress, e.node.httpPort, e.node.id, e.node.name, e.shard.name,
                                           mapping, settings);
    }
  }

  /** The end of `getSplits` once the targets are known: the mapping if there is a target, closing, the splits. */
  method BuildSplits(repo: RestRepository, targets: seq<Entry>, savedSettings: JavaBytes, saveMapping: Bytes -> JavaBytes)
    returns (r: Result<array<ShardInputSplit?>>)
    requires repo.Valid() && repo.client != null && !repo.writeInitialized && repo.resourceR.Some?
    requires repo.client.requests == |repo.client.log| && !repo.client.closed
    modifies repo.Repr
    ensures var c := old(repo.client);
            var p := SplitsFrom(repo.resourceR.value, c.oracle, targets, old(c.log), savedSettings, saveMapping);
            && (r.Ok? <==> p.outcome.Ok?)
            && (r.Err? ==> r.error == p.outcome.error)
            && (r.Ok? ==> && fresh(r.value) && r.value.Length == |p.outcome.value|
                          && forall i :: 0 <= i < r.value.Length ==>
                               r.value[i] != null && fresh(r.value[i]) && r.value[i].Fields() == p.outcome.value[i])
            && c.log == p.sent && c.closed == p.closed
  {
    ghost var c := repo.client;
    var savedMapping: JavaBytes := [];
    if targets != [] {
      var mapping := repo.GetMapping();
      if mapping.Err? {
        return Err(mapping.error);
      }
      savedMapping := saveMapping(mapping.value);
    }
    var closing := repo.Close();
    assert c.log == old(c.log) + (if targets != [] then [Request.GetMapping(repo.resourceR.value)] else []) + [] + [];
    var splits := MakeSplits(targets, savedMapping, savedSettings);
    r := Ok(splits);
  }

  /**
   * `getSplits(JobConf, int)`: opens a session on the job settings, checks the
   * read index exists, resolves its shards, fetches the mapping when there is
   * a shard, closes the session, and builds one split per shard.
   */
  method GetSplits(settings: Settings, oracle: Oracle, savedSettings: JavaBytes, saveMapping: Bytes -> JavaBytes)
    returns (r: Result<array<ShardInputSplit?>>, ghost client: RestClient?)
    ensures var p := Plan(settings, oracle, savedSettings, saveMapping);
            && (r.Ok? <==> p.outcome.Ok?)
            && (r.Err? ==> r.error == p.outcome.error)
            && (r.Ok? ==> && fresh(r.value) && r.value.Length == |p.outcome.value|
                          && forall i :: 0 <= i < r.value.Length ==>
                               r.value[i] != null && fresh(r.value[i]) && r.value[i].Fields() == p.outcome.value[i])
            && (HasText(settings.resourceRead) ==>
                  && client != null && fresh(client) && client.oracle == oracle
                  && client.log == p.sent && client.closed == p.closed)
  {
    client := null;
    var created := Create(settings, NoBulk, oracle);
    if created.Err? {
      return Err(created.error), client;
    }
    var repo := created.value;
    client := repo.client;
    if repo.resourceR.None? {
      return Err(NullReference), client;
    }
    var found, attempts := FindReadTargets(repo);
    if found.Err? {
      return Err(found.error), client;
    }
    assert Plan(settings, oracle, savedSettings, saveMapping)
           == SplitsFrom(settings.resourceRead, oracle, found.value, client.log, savedSettings, saveMapping);
    r := BuildSplits(repo, found.value, savedSettings, saveMapping);
  }

  /** Hadoop's `Text`: a mutable piece of text. */
  class Text {
    var contents: Bytes

    constructor ()
      ensures contents == []
    {
      contents := [];
    }

    method Set(s: Bytes)
      modifies this
      ensures contents == s
    {
      contents := s;
    }
  }

  /** Hadoop's `MapWritable`: a mutable map from field names to values. */
  class MapWritable {
    var entries: map<Bytes, Bytes>

    constructor ()
      ensures entries == map[]
    {
      entries := map[];
    }

    method Clear()
      modifies this
      ensures entries == map[]
    {
      entries := map[];
    }

    /** Copies every entry of `m`, overriding the keys already present. */
    method PutAll(m: map<Bytes, Bytes>)
      modifies this
      ensures entries == old(entries) + m
    {
      entries := entries + m;
    }
  }

  /** An open scroll: the documents of one shard in server order, and a cursor. */
  class ScrollQuery {
    const size: int
    const hits: seq<Hit>
    var position: nat
    var closed: bool

    constructor (reply: ScrollReply)
      ensures size == reply.totalSize && hits == reply.hits && position == 0 && !closed
    {
      size := reply.totalSize;
      hits := reply.hits;
      position := 0;
      closed := false;
    }

    predicate HasNext()
      reads this
    {
      position < |hits|
    }

    method Next() returns (hit: Hit)
      requires HasNext()
      modifies this
      ensures hit == hits[old(position)] && position == old(position) + 1 && closed == old(closed)
    {
      hit := hits[position];
      position := position + 1;
    }

    method Close()
      modifies this
      ensures closed && position == old(position)
    {
      closed := true;
    }
  }

  /**
   * The settings of a reader: the job settings, pinned to the node of the
   * split unless they already pin a node.
   */
  function ReaderSettings(settings: Settings, split: SplitFields): (s: Settings)
    ensures s.pinned.Some?
    ensures settings.pinned.None? ==> s.pinned == Some(IpPort(split.nodeIp, split.httpPort))
    ensures settings.pinned.Some? ==> s == settings
    ensures s.(pinned := settings.pinned) == settings
  {
    if settings.pinned.Some? then settings else settings.(pinned := Some(IpPort(split.nodeIp, split.httpPort)))
  }

  /**
   * `ShardRecordReader` with the `Text` keys and `MapWritable` values of
   * `WritableShardRecordReader`: reads one split through a scroll built on
   * the first call to `next`.
   */
  class ShardRecordReader {
    const split: SplitFields
    var client: RestRepository?
    var scrollQuery: ScrollQuery?
    var size: int
    /** The number of records handed out so far. */
    var read: int
    /** The records handed out so far, in order. */
    ghost var served: seq<Hit>
    ghost var Repr: set<object>

    ghost predicate Valid()
      reads this, Repr
    {
      && this in Repr
      && read == |served|
      && (client != null ==>
            && client in Repr && client.Repr <= Repr && this !in client.Repr
            && client.Valid() && client.client != null && !client.writeInitialized)
      && (scrollQuery != null ==>
            && scrollQuery in Repr
            && (client != null ==> scrollQuery !in client.Repr)
            && scrollQuery.position <= |scrollQuery.hits|
            && served == scrollQuery.hits[..scrollQuery.position]
            && size == scrollQuery.size)
      && (scrollQuery == null && client != null ==> served == [])
    }

    /** `init`: a reader of the split over a session that has sent nothing yet. */
    constructor (split: SplitFields, session: RestRepository)
      requires session.Valid() && session.client != null && !session.writeInitialized
      ensures Valid() && fresh(Repr - session.Repr)
      ensures this.split == split && client == session && scrollQuery == null && read == 0 && served == []
    {
      this.split := split;
      client := session;
      scrollQuery := null;
      size := 0;
      read := 0;
      served := [];
      Repr := {this} + session.Repr;
    }

    /** `getPos`: the number of successful calls to `next`. */
    function GetPos(): (p: int)
      reads this, Repr
      requires Valid()
      ensures p == |served|
    {
      read
    }

    /** `setCurrentKey`: a key that is present takes the document id; the key is handed back. */
    static method SetCurrentKey(key: Text?, id: Bytes) returns (k: Text?)
      modifies key
      ensures k == key
      ensures key != null ==> key.contents == id
    {
      if key != null {
        key.Set(id);
      }
      k := key;
    }

    /**
     * `setCurrentValue`: a value that is present is emptied and then filled
     * with the document's fields, so it holds exactly those; it is handed back.
     */
    static method SetCurrentValue(value: MapWritable?, source: map<Bytes, Bytes>) returns (v: MapWritable?)
      modifies value
      ensures v == value
      ensures value != null ==> value.entries == source
    {
      if value != null {
        value.Clear();
        value.PutAll(source);
        assert map[] + source == source;
      }
      v := value;
    }

    /** `queryBuilder.build`: opens the scroll of the split's shard on the split's node. */
    method BuildScroll() returns (r: Outcome)
      requires Valid() && scrollQuery == null
      modifies Repr
      ensures Valid() && fresh(Repr - old(Repr))
      ensures client == old(client) && read == old(read) && served == old(served)
      ensures old(client) == null || old(client).resourceR.None? ==> r == Fail(NullReference) && unchanged(this)
      ensures old(client) != null && old(client).resourceR.Some? ==>
                && r.Pass? && fresh(scrollQuery) && scrollQuery.position == 0
                && scrollQuery.hits == client.client.oracle.scroll(old(client.client.requests)).hits
                && size == client.client.oracle.scroll(old(client.client.requests)).totalSize
                && client.client.log == old(client.client.log)
                                        + [Request.Scan(client.resourceR.value, split.shardId, split.nodeId)]
    {
      if client == null || client.resourceR.None? {
        return Fail(NullReference);
      }
      var reply := client.Scan(split.shardId, split.nodeId);
      scrollQuery := new ScrollQuery(reply);
      size := scrollQuery.size;
      Repr := Repr + {scrollQuery};
      r := Pass;
    }

    /**
     * `next`: builds the scroll on the first call (a released or absent
     * session raises), then hands out the next document, if any, through the
     * key and value, and counts it.
     */
    method Next(key: Text?, value: MapWritable?) returns (r: Result<bool>)
      requires Valid()
      requires key !in Repr && value !in Repr
      modifies Repr, key, value
      ensures Valid() && fresh(Repr - old(Repr)) && client == old(client)
      ensures old(scrollQuery) == null && (old(client) == null || old(client).resourceR.None?) ==>
                && r == Err(NullReference) && unchanged(this)
                && (key != null ==> unchanged(key)) && (value != null ==> unchanged(value))
      ensures old(scrollQuery) == null && old(client) != null && old(client).resourceR.Some? ==>
                && fresh(scrollQuery)
                && scrollQuery.hits == client.client.oracle.scroll(old(client.client.requests)).hits
                && size == client.client.oracle.scroll(old(client.client.requests)).totalSize
                && client.client.log == old(client.client.log)
                                        + [Request.Scan(client.resourceR.value, split.shardId, split.nodeId)]
      ensures old(scrollQuery) != null ==> r.Ok? && scrollQuery == old(scrollQuery) && size == old(size)
      ensures r.Ok? ==> scrollQuery != null && (r.value <==> old(read) < |scrollQuery.hits|)
      ensures r == Ok(true) ==>
                && read == old(read) + 1
                && served == old(served) + [scrollQuery.hits[old(read)]]
                && (key != null ==> key.contents == scrollQuery.hits[old(read)].id)
                && (value != null ==> value.entries == scrollQuery.hits[old(read)].source)
      ensures r == Ok(false) ==>
                && read == old(read) && served == old(served)
                && (key != null ==> unchanged(key)) && (value != null ==> unchanged(value))
    {
      if scrollQuery == null {
        var built := BuildScroll();
        if built.Fail? {
          return Err(built.error);
        }
      }
      var more := Advance(key, value);
      r := Ok(more);
    }

    /** The part of `next` after the scroll exists: hand out and count the next document, if any. */
    method Advance(key: Text?, value: MapWritable?) returns (more: bool)
      requires Valid() && scrollQuery != null
      requires key !in Repr && value !in Repr
      modifies this, scrollQuery, key, value
      ensures Valid() && Repr == old(Repr) && client == old(client)
      ensures scrollQuery == old(scrollQuery) && size == old(size)
      ensures more <==> old(read) < |scrollQuery.hits|
      ensures more ==>
                && read == old(read) + 1
                && served == old(served) + [scrollQuery.hits[old(read)]]
                && (key != null ==> key.contents == scrollQuery.hits[old(read)].id)
                && (value != null ==> value.entries == scrollQuery.hits[old(read)].source)
      ensures !more ==>
                && read == old(read) && served == old(served)
                && (key != null ==> unchanged(key)) && (value != null ==> unchanged(value))
    {
      if !scrollQuery.HasNext() {
        return false;
      }
      var hit := scrollQuery.Next();
      var k := SetCurrentKey(key, hit.id);
      var v := SetCurrentValue(value, hit.source);
      read := read + 1;
      served := served + [hit];
      more := true;
    }

    /**
     * `close`: closes the scroll and the session, then forgets both. A reader's
     * session has nothing buffered, so closing it cannot fail.
     */
    method Close() returns (r: Outcome)
      requires Valid()
      modifies Repr
      ensures Valid() && r == Pass
      ensures client == null && scrollQuery == null && read == old(read) && served == old(served)
      ensures old(scrollQuery) != null ==> old(scrollQuery).closed
      ensures old(client) != null ==> old(client).client == null && old(client.client).closed
    {
      if scrollQuery != null {
        scrollQuery.Close();
      }
      if client != null {
        var closing := client.Close();
      }
      client := null;
      scrollQuery := null;
      r := Pass;
    }
  }

  /**
   * `ShardRecordReader.init` on a split: a session on the reader settings.
   * Settings naming no resource at all are refused.
   */
  method OpenReader(split: ShardInputSplit, settings: Settings, oracle: Oracle) returns (r: Result<ShardRecordReader>)
    ensures var s := ReaderSettings(settings, split.Fields());
            && (r.Err? <==> !(HasText(s.resourceRead) || HasText(s.resourceWrite)))
            && (r.Err? ==> r.error == InvalidConfiguration)
            && (r.Ok? ==> && fresh(r.value.Repr) && r.value.Valid()
                          && r.value.split == split.Fields() && r.value.read == 0 && r.value.scrollQuery == null
                          && r.value.client != null && r.value.client.Opened(s, oracle))
  {
    var s := ReaderSettings(settings, split.Fields());
    var session := Create(s, NoBulk, oracle);
    if session.Err? {
      return Err(session.error);
    }
    var reader := new ShardRecordReader(split.Fields(), session.value);
    r := Ok(reader);
  }
}
