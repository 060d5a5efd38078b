/**
 * How a record writer picks where it writes (`EsOutputFormat.EsRecordWriter`):
 * the task's instance number, the node it pins before discovery, the ordering
 * of the primary shards, the bucket `instance % N`, and the random node of the
 * index-pattern path. Java's `%` truncates toward zero; Dafny's is Euclidean,
 * so the Java operator is written out as `JavaRem`.
 */
module ShardAssignment {
  import opened EsTypes

  /** The instance number used when the configuration carries no task id. */
  const NO_TASK_ID: int := -1

  /** `detectCurrentInstance`: the task's id, or `NO_TASK_ID` when there is none. */
  function DetectCurrentInstance(taskId: Option<nat>): (instance: int)
    ensures instance >= 0 <==> taskId.Some?
    ensures taskId.Some? ==> instance == taskId.value
  {
    if taskId.None? then NO_TASK_ID else taskId.value
  }

  /** Java's `a % n` for a positive divisor: the remainder takes the sign of `a`. */
  function JavaRem(a: int, n: int): (r: int)
    requires n > 0
    ensures a >= 0 ==> r == a % n
    ensures a >= 0 ==> 0 <= r < n
    ensures a < 0 ==> -n < r <= 0 && r == -((-a) % n)
  {
    if a >= 0 then a % n else -((-a) % n)
  }

  /**
   * The pre-discovery pin as written: `nodes.get(instance % nodes.size())`,
   * with Java's remainder. An empty list divides by zero; a negative index is
   * out of bounds.
   */
  function PrePinAsWritten(nodes: seq<Bytes>, instance: int): (r: Result<Bytes>)
    ensures nodes == [] ==> r == Err(DivideByZero)
    ensures r.Ok? ==> r.value in nodes
    ensures nodes != [] && instance >= 0 ==> r == Ok(nodes[instance % |nodes|])
  {
    if nodes == [] then Err(DivideByZero)
    else
      var i := JavaRem(instance, |nodes|);
      if i < 0 then Err(IndexOutOfBounds) else Ok(nodes[i])
  }

  /** Without a task id and with two or more nodes, the pin as written indexes -1. */
  lemma NoTaskIdPrePinFails(nodes: seq<Bytes>)
    requires |nodes| >= 2
    ensures JavaRem(NO_TASK_ID, |nodes|) == -1
    ensures PrePinAsWritten(nodes, NO_TASK_ID) == Err(IndexOutOfBounds)
  {
  }

  /**
   * The pre-discovery pin with the remainder taken in `[0, |nodes|)`: it always
   * picks a listed node, and it picks the same node as the code as written
   * whenever the instance is a task id.
   */
  function PrePin(nodes: seq<Bytes>, instance: int): (r: Result<Bytes>)
    ensures r.Err? <==> nodes == []
    ensures r.Err? ==> r.error == DivideByZero
    ensures r.Ok? ==> r.value in nodes
    ensures instance >= 0 ==> r == PrePinAsWritten(nodes, instance)
    ensures nodes != [] && instance == NO_TASK_ID ==> r == Ok(nodes[|nodes| - 1])
    ensures instance >= NO_TASK_ID && PrePinAsWritten(nodes, instance).Ok? ==> r == PrePinAsWritten(nodes, instance)
  {
    if nodes == [] then Err(DivideByZero) else Ok(nodes[instance % |nodes|])
  }

  /** Shards in non-decreasing order of their shard number. */
  predicate SortedByName(s: seq<ShardCopy>) {
    forall i, j :: 0 <= i < j < |s| ==> s[i].name <= s[j].name
  }

  predicate StrictlySorted(s: seq<ShardCopy>) {
    forall i, j :: 0 <= i < j < |s| ==> s[i].name < s[j].name
  }

  /** Every shard occurs once, and no two different shards share a shard number. */
  predicate UniqueNames(m: multiset<ShardCopy>) {
    && (forall x :: x in m ==> m[x] == 1)
    && (forall x, y :: x in m && y in m && x.name == y.name ==> x == y)
  }

  /**
   * `Collections.sort` on the list of primary shards, in place, by insertion:
   * the list ends up ordered and holds the same shards.
   */
  method SortShards(a: array<ShardCopy>)
    modifies a
    ensures SortedByName(a[..])
    ensures multiset(a[..]) == multiset(old(a[..]))
  {
    for i := 0 to a.Length
      invariant SortedByName(a[..i])
      invariant multiset(a[..]) == multiset(old(a[..]))
    {
      InsertLast(a, i);
    }
    assert a[..a.Length] == a[..];
  }

  /** One insertion step: moves `a[i]` left past the larger shards before it. */
  method InsertLast(a: array<ShardCopy>, i: nat)
    requires i < a.Length && SortedByName(a[..i])
    modifies a
    ensures SortedByName(a[..i + 1])
    ensures multiset(a[..]) == multiset(old(a[..]))
  {
    var j := i;
    while j > 0 && a[j - 1].name > a[j].name
      invariant 0 <= j <= i
      invariant forall k, m :: 0 <= k < m <= i && m != j ==> a[k].name <= a[m].name
      invariant multiset(a[..]) == multiset(old(a[..]))
    {
      SwapDown(a, j);
      j := j - 1;
    }
  }

  /** Exchanges `a[j - 1]` and `a[j]`. */
  method SwapDown(a: array<ShardCopy>, j: nat)
    requires 0 < j < a.Length
    modifies a
    ensures a[..] == old(a[..])[j - 1 := old(a[j])][j := old(a[j - 1])]
    ensures multiset(a[..]) == multiset(old(a[..]))
  {
    a[j - 1], a[j] := a[j], a[j - 1];
  }

  /** An element found at two positions is counted at least twice. */
  lemma TwiceCounted(s: seq<ShardCopy>, i: nat, j: nat)
    requires i < j < |s| && s[i] == s[j]
    ensures multiset(s)[s[i]] >= 2
  {
    assert s == s[..j] + [s[j]] + s[j + 1..];
    assert s[..j][i] == s[i];
    assert multiset(s) == multiset(s[..j]) + multiset{s[j]} + multiset(s[j + 1..]);
  }

  lemma SortedUniqueIsStrict(s: seq<ShardCopy>)
    requires SortedByName(s) && UniqueNames(multiset(s))
    ensures StrictlySorted(s)
  {
    forall i, j | 0 <= i < j < |s| ensures s[i].name < s[j].name {
      if s[i].name == s[j].name {
        assert s[i] in multiset(s) && s[j] in multiset(s);
        TwiceCounted(s, i, j);
        assert false;
      }
    }
  }

  /** Removing equal first elements from two reorderings of each other leaves reorderings of each other. */
  lemma TailPerm(s: seq<ShardCopy>, t: seq<ShardCopy>)
    requires |s| > 0 && |t| > 0 && s[0] == t[0] && multiset(s) == multiset(t)
    ensures multiset(s[1..]) == multiset(t[1..])
  {
    assert s == [s[0]] + s[1..];
    assert t == [t[0]] + t[1..];
    forall y ensures multiset(s[1..])[y] == multiset(t[1..])[y] {
      assert multiset(s)[y] == multiset{s[0]}[y] + multiset(s[1..])[y];
      assert multiset(t)[y] == multiset{t[0]}[y] + multiset(t[1..])[y];
    }
  }

  /** Two strictly ordered sequences holding the same shards start with the same shard. */
  lemma StrictlySortedHead(s: seq<ShardCopy>, t: seq<ShardCopy>)
    requires StrictlySorted(s) && StrictlySorted(t) && multiset(s) == multiset(t) && |s| > 0
    ensures |t| > 0 && s[0] == t[0]
  {
    assert s[0] in multiset(t);
    var i :| 0 <= i < |t| && t[i] == s[0];
    assert t[0] in multiset(s);
    var j :| 0 <= j < |s| && s[j] == t[0];
  }

  /** Two strictly ordered sequences holding the same shards are the same sequence. */
  lemma {:induction false} StrictlySortedUnique(s: seq<ShardCopy>, t: seq<ShardCopy>)
    requires StrictlySorted(s) && StrictlySorted(t) && multiset(s) == multiset(t)
    ensures s == t
    decreases |s|
  {
    assert |s| == |multiset(s)| == |multiset(t)| == |t|;
    if s != [] {
      StrictlySortedHead(s, t);
      TailPerm(s, t);
      StrictlySortedUnique(s[1..], t[1..]);
      assert s == [s[0]] + s[1..] && t == [t[0]] + t[1..];
    }
  }

  /**
   * Every ordering of the same shards with unique names is the same sequence:
   * the order `Collections.sort` leaves does not depend on the order the
   * shards came in.
   */
  lemma SortedPermutationUnique(s: seq<ShardCopy>, t: seq<ShardCopy>)
    requires SortedByName(s) && SortedByName(t) && multiset(s) == multiset(t)
    requires UniqueNames(multiset(s))
    ensures s == t
  {
    SortedUniqueIsStrict(s);
    SortedUniqueIsStrict(t);
    StrictlySortedUnique(s, t);
  }

  lemma {:induction false} KeysAppend(a: seq<Entry>, b: seq<Entry>)
    ensures Keys(a + b) == Keys(a) + Keys(b)
  {
  }

  /** Taking the first entry out of one and its copy out of the other keeps two reorderings reorderings. */
  lemma PermRest(t1: seq<Entry>, t2: seq<Entry>, k: nat)
    requires multiset(t1) == multiset(t2) && |t1| > 0 && k < |t2| && t2[k] == t1[0]
    ensures multiset(t1[1..]) == multiset(t2[..k] + t2[k + 1..])
  {
    assert t1 == [t1[0]] + t1[1..];
    assert t2 == t2[..k] + [t2[k]] + t2[k + 1..];
    forall y ensures multiset(t1[1..])[y] == multiset(t2[..k] + t2[k + 1..])[y] {
      assert multiset(t1)[y] == multiset{t1[0]}[y] + multiset(t1[1..])[y];
      assert multiset(t2)[y] == multiset(t2[..k])[y] + multiset{t2[k]}[y] + multiset(t2[k + 1..])[y];
    }
  }

  /** The keys of entries with one entry taken out are the keys with that entry's shard taken out. */
  lemma KeysWithout(t: seq<Entry>, k: nat)
    requires k < |t|
    ensures multiset(Keys(t)) == multiset(Keys(t[..k] + t[k + 1..])) + multiset{t[k].shard}
  {
    var before, after := t[..k], t[k + 1..];
    var s := t[k].shard;
    assert t == before + [t[k]] + after;
    KeysAppend(before + [t[k]], after);
    KeysAppend(before, [t[k]]);
    KeysAppend(before, after);
    assert Keys([t[k]]) == [s];
    calc {
      multiset(Keys(t));
      multiset(Keys(before) + [s] + Keys(after));
      multiset(Keys(before)) + multiset{s} + multiset(Keys(after));
      multiset(Keys(before + after)) + multiset{s};
    }
  }

  lemma KeysHead(t: seq<Entry>)
    requires |t| > 0
    ensures multiset(Keys(t)) == multiset(Keys(t[1..])) + multiset{t[0].shard}
  {
    assert t == [t[0]] + t[1..];
    KeysAppend([t[0]], t[1..]);
    assert Keys([t[0]]) == [t[0].shard];
  }

  /** The first entry of one of two reorderings of each other is found in the other. */
  lemma FindCopy(t1: seq<Entry>, t2: seq<Entry>) returns (k: nat)
    requires multiset(t1) == multiset(t2) && |t1| > 0
    ensures k < |t2| && t2[k] == t1[0]
  {
    assert t1[0] in multiset(t2);
    k :| 0 <= k < |t2| && t2[k] == t1[0];
  }

  /** Entries that are a reordering of each other have keys that are a reordering of each other. */
  lemma {:induction false} KeysPerm(t1: seq<Entry>, t2: seq<Entry>)
    requires multiset(t1) == multiset(t2)
    ensures multiset(Keys(t1)) == multiset(Keys(t2))
    decreases |t1|
  {
    if t1 == [] {
      assert |t2| == |multiset(t2)| == 0;
    } else {
      var k := FindCopy(t1, t2);
      var rest := t2[..k] + t2[k + 1..];
      var tail, x := multiset(Keys(t1[1..])), multiset{t1[0].shard};
      assert tail == multiset(Keys(rest)) by {
        PermRest(t1, t2, k);
        KeysPerm(t1[1..], rest);
      }
      assert multiset(Keys(t1)) == tail + x by {
        KeysHead(t1);
      }
      assert multiset(Keys(t2)) == multiset(Keys(rest)) + x by {
        KeysWithout(t2, k);
      }
    }
  }

  /**
   * `targetShards.get(shard)`: the node of the first entry for the shard. The
   * map keeps the last entry put for a key instead; the two agree whenever
   * each shard number appears once (`OneNodePerShard`), and differ only for a
   * shard listed twice with two nodes.
   */
  function Lookup(entries: seq<Entry>, shard: ShardCopy): (r: Option<Node>)
    ensures r.Some? ==> Entry(shard, r.value) in entries
    ensures r.None? <==> shard !in Keys(entries)
  {
    if entries == [] then None
    else if entries[0].shard == shard then Some(entries[0].node)
    else Lookup(entries[1..], shard)
  }

  /** What `initSingleIndex` settles on: the sorted shards, the instance, the bucket, the shard and its node. */
  datatype Assignment = Assignment(ordered: seq<ShardCopy>, instance: int, bucket: nat, shard: ShardCopy, node: Node)

  /**
   * An assignment for a non-empty target map: the shards in order; the task's
   * own instance when it is positive, otherwise some instance in `[1, N]`; the
   * bucket `instance % N`; the shard in that position; the node mapped to it.
   */
  predicate Assigned(targets: seq<Entry>, currentInstance: int, a: Assignment) {
    && |targets| > 0
    && SortedByName(a.ordered) && multiset(a.ordered) == multiset(Keys(targets))
    && (currentInstance > 0 ==> a.instance == currentInstance)
    && (currentInstance <= 0 ==> 1 <= a.instance <= |targets|)
    && a.bucket == a.instance % |targets|
    && a.bucket < |a.ordered| && a.shard == a.ordered[a.bucket]
    && Lookup(targets, a.shard) == Some(a.node)
  }

  /**
   * The shard choice of `initSingleIndex`: refuse an empty target map, sort the
   * shards, replace a non-positive instance by a random one in `[1, N]`, and
   * take the shard in position `instance % N` together with its node.
   */
  method AssignShard(targets: seq<Entry>, currentInstance: int) returns (r: Result<Assignment>)
    ensures r.Err? <==> targets == []
    ensures r.Err? ==> r.error == NoWriteShards
    ensures r.Ok? ==> Assigned(targets, currentInstance, r.value)
    ensures r.Ok? ==> 0 <= r.value.bucket < |targets| && r.value.instance > 0
  {
    if targets == [] {
      return Err(NoWriteShards);
    }
    var keys := Keys(targets);
    var ordered := new ShardCopy[|keys|];
    forall i | 0 <= i < |keys| {
      ordered[i] := keys[i];
    }
    assert ordered[..] == keys;
    SortShards(ordered);
    var instance := currentInstance;
    if instance <= 0 {
      instance :| 1 <= instance <= |targets|;
    }
    var bucket := JavaRem(instance, |targets|);
    var shard := ordered[bucket];
    assert shard in multiset(keys);
    var node := Lookup(targets, shard);
    r := Ok(Assignment(ordered[..], instance, bucket, shard, node.value));
  }

  /** Two entries for one shard carry the same node when shard numbers are unique. */
  lemma OneNodePerShard(targets: seq<Entry>, s: ShardCopy, n1: Node, n2: Node)
    requires UniqueNames(multiset(Keys(targets)))
    requires Entry(s, n1) in targets && Entry(s, n2) in targets
    ensures n1 == n2
  {
    var p :| 0 <= p < |targets| && targets[p] == Entry(s, n1);
    var q :| 0 <= q < |targets| && targets[q] == Entry(s, n2);
    var ks := Keys(targets);
    if p < q {
      TwiceCounted(ks, p, q);
    } else if q < p {
      TwiceCounted(ks, q, p);
    }
  }

  /**
   * For a positive task id, the shard and the node do not depend on the order
   * in which the target map lists its entries, nor on anything random.
   */
  lemma AssignmentDeterministic(t1: seq<Entry>, t2: seq<Entry>, instance: int, a1: Assignment, a2: Assignment)
    requires multiset(t1) == multiset(t2) && UniqueNames(multiset(Keys(t1)))
    requires instance > 0 && Assigned(t1, instance, a1) && Assigned(t2, instance, a2)
    ensures a1.shard == a2.shard && a1.node == a2.node
  {
    KeysPerm(t1, t2);
    assert |t1| == |multiset(t1)| == |t2|;
    SortedPermutationUnique(a1.ordered, a2.ordered);
    assert Entry(a1.shard, a2.node) in multiset(t1);
    OneNodePerShard(t1, a1.shard, a1.node, a2.node);
  }

  /**
   * The node choice of `initMultiIndices`: a random position of the node list;
   * an empty list is refused (`Random.nextInt(0)` raises).
   */
  method PickPatternNode(nodes: seq<Bytes>) returns (r: Result<nat>)
    ensures r.Err? <==> nodes == []
    ensures r.Err? ==> r.error == NoNodes
    ensures r.Ok? ==> r.value < |nodes|
  {
    if nodes == [] {
      return Err(NoNodes);
    }
    var i :| 0 <= i < |nodes|;
    r := Ok(i);
  }
}
