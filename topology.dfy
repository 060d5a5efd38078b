/**
 * Shard-to-node resolution over one topology snapshot (the loops of
 * `doGetReadTargetShards` and `doGetWriteTargetPrimaryShards`). Each shard
 * group contributes at most one entry: its first qualifying copy, paired with
 * the node the registry lists under that copy's node id. A selected copy whose
 * node id the registry does not know makes the whole attempt stale.
 */
module Topology {
  import opened EsTypes

  /** Which copies a resolution accepts. */
  datatype Role = Read | Write

  /** Reads accept the first started copy, of either role; writes accept the primary copy, in any state. */
  predicate Qualifies(c: ShardCopy, role: Role) {
    match role
    case Read => c.started
    case Write => c.primary
  }

  /** The position of the first copy of the group that qualifies for the role. */
  function FirstQualifying(group: seq<ShardCopy>, role: Role): (r: Option<nat>)
    ensures r.Some? ==> r.value < |group| && Qualifies(group[r.value], role)
    ensures r.Some? ==> forall j :: 0 <= j < r.value ==> !Qualifies(group[j], role)
    ensures r.None? ==> forall j :: 0 <= j < |group| ==> !Qualifies(group[j], role)
  {
    if group == [] then None
    else if Qualifies(group[0], role) then Some(0)
    else match FirstQualifying(group[1..], role)
      case None => None
      case Some(i) => Some(i + 1)
  }

  /** What one group does to an attempt. */
  datatype Step = Skip | Stale | Take(entry: Entry)

  function GroupStep(group: seq<ShardCopy>, nodes: map<Bytes, Node>, role: Role): Step {
    match FirstQualifying(group, role)
    case None => Skip
    case Some(i) =>
      if group[i].nodeId in nodes then Take(Entry(group[i], nodes[group[i].nodeId])) else Stale
  }

  /** One resolution attempt over a snapshot: None when the snapshot is stale. */
  function Resolve(groups: seq<seq<ShardCopy>>, nodes: map<Bytes, Node>, role: Role): Option<seq<Entry>>
  {
    if groups == [] then Some([])
    else match GroupStep(groups[0], nodes, role)
      case Stale => None
      case Skip => Resolve(groups[1..], nodes, role)
      case Take(e) => Prepend([e], Resolve(groups[1..], nodes, role))
  }

  function Prepend(entries: seq<Entry>, r: Option<seq<Entry>>): Option<seq<Entry>> {
    match r
    case None => None
    case Some(rest) => Some(entries + rest)
  }

  lemma PrependNil(r: Option<seq<Entry>>)
    ensures Prepend([], r) == r
  {
    if r.Some? {
      assert [] + r.value == r.value;
    }
  }

  lemma PrependPrepend(a: seq<Entry>, b: seq<Entry>, r: Option<seq<Entry>>)
    ensures Prepend(a, Prepend(b, r)) == Prepend(a + b, r)
  {
    if r.Some? {
      assert a + (b + r.value) == (a + b) + r.value;
    }
  }

  /** The number of groups holding a qualifying copy. */
  function Contributing(groups: seq<seq<ShardCopy>>, role: Role): nat {
    if groups == [] then 0
    else (if FirstQualifying(groups[0], role).Some? then 1 else 0) + Contributing(groups[1..], role)
  }

  /** An entry as the resolver builds it: a qualifying copy and the registry's node for it. */
  predicate WellFormed(e: Entry, nodes: map<Bytes, Node>, role: Role) {
    Qualifies(e.shard, role) && e.shard.nodeId in nodes && e.node == nodes[e.shard.nodeId]
  }

  /**
   * The nested loops of one attempt: scan the groups in order, and in each group
   * the copies in order; take the first qualifying copy, give up on the whole
   * attempt when its node id is unknown, skip a group with no qualifying copy.
   */
  method SelectTargets(info: seq<seq<ShardCopy>>, nodes: map<Bytes, Node>, role: Role)
    returns (r: Option<seq<Entry>>)
    ensures r == Resolve(info, nodes, role)
  {
    var shards: seq<Entry> := [];
    assert info[0..] == info;
    PrependNil(Resolve(info, nodes, role));
    for g := 0 to |info|
      invariant Resolve(info, nodes, role) == Prepend(shards, Resolve(info[g..], nodes, role))
    {
      var group := info[g];
      assert info[g..][0] == group && info[g..][1..] == info[g + 1..];
      ghost var before := shards;
      ghost var taken := false;
      var i := 0;
      while i < |group|
        invariant 0 <= i <= |group|
        invariant forall j :: 0 <= j < i ==> !Qualifies(group[j], role)
        invariant shards == before && !taken
      {
        var shard := group[i];
        if Qualifies(shard, role) {
          assert FirstQualifying(group, role) == Some(i);
          if shard.nodeId !in nodes {
            assert GroupStep(group, nodes, role) == Stale;
            assert Resolve(info[g..], nodes, role) == None;
            return None;
          }
          shards := shards + [Entry(shard, nodes[shard.nodeId])];
          taken := true;
          break;
        }
        i := i + 1;
      }
      if taken {
        assert GroupStep(group, nodes, role) == Take(shards[|shards| - 1]);
        assert shards == before + [shards[|shards| - 1]];
        PrependPrepend(before, [shards[|shards| - 1]], Resolve(info[g + 1..], nodes, role));
      } else {
        assert GroupStep(group, nodes, role) == Skip;
      }
    }
    assert info[|info|..] == [] && shards + [] == shards;
    r := Some(shards);
  }

  /** An attempt fails exactly when some group selects a copy on an unknown node. */
  lemma {:induction false} ResolveStaleIff(groups: seq<seq<ShardCopy>>, nodes: map<Bytes, Node>, role: Role)
    ensures Resolve(groups, nodes, role).None?
        <==> exists g :: 0 <= g < |groups| && GroupStep(groups[g], nodes, role).Stale?
  {
    if groups != [] {
      ResolveStaleIff(groups[1..], nodes, role);
      if Resolve(groups, nodes, role).None? && !GroupStep(groups[0], nodes, role).Stale? {
        var g :| 0 <= g < |groups[1..]| && GroupStep(groups[1..][g], nodes, role).Stale?;
        assert GroupStep(groups[g + 1], nodes, role).Stale?;
      }
      if exists g :: 0 <= g < |groups| && GroupStep(groups[g], nodes, role).Stale? {
        var g :| 0 <= g < |groups| && GroupStep(groups[g], nodes, role).Stale?;
        if g > 0 {
          assert GroupStep(groups[1..][g - 1], nodes, role).Stale?;
        }
      }
    }
  }

  /**
   * A successful attempt has one entry per group that holds a qualifying copy,
   * and every entry is a qualifying copy paired with the registry's node for it.
   */
  lemma {:induction false} ResolveEntries(groups: seq<seq<ShardCopy>>, nodes: map<Bytes, Node>, role: Role)
    requires Resolve(groups, nodes, role).Some?
    ensures var es := Resolve(groups, nodes, role).value;
      && |es| == Contributing(groups, role) <= |groups|
      && forall k :: 0 <= k < |es| ==> WellFormed(es[k], nodes, role)
  {
    if groups != [] {
      ResolveEntries(groups[1..], nodes, role);
      match FirstQualifying(groups[0], role)
      case None =>
      case Some(i) =>
    }
  }

  /**
   * When every group holds a qualifying copy, entry k comes from group k and is
   * that group's first qualifying copy.
   */
  lemma {:induction false} ResolveGroupwise(groups: seq<seq<ShardCopy>>, nodes: map<Bytes, Node>, role: Role)
    requires forall g :: 0 <= g < |groups| ==> FirstQualifying(groups[g], role).Some?
    requires Resolve(groups, nodes, role).Some?
    ensures var es := Resolve(groups, nodes, role).value;
      && |es| == |groups|
      && forall k :: 0 <= k < |es| ==> es[k].shard == groups[k][FirstQualifying(groups[k], role).value]
  {
    if groups != [] {
      assert FirstQualifying(groups[0], role).Some?;
      forall g | 0 <= g < |groups[1..]| ensures FirstQualifying(groups[1..][g], role).Some? {
        assert groups[1..][g] == groups[g + 1];
      }
      ResolveGroupwise(groups[1..], nodes, role);
    }
  }

  /** A snapshot in which no group holds a qualifying copy resolves to an empty map. */
  lemma {:induction false} ResolveNoneQualifying(groups: seq<seq<ShardCopy>>, nodes: map<Bytes, Node>, role: Role)
    requires forall g :: 0 <= g < |groups| ==> FirstQualifying(groups[g], role).None?
    ensures Resolve(groups, nodes, role) == Some([])
  {
    if groups != [] {
      assert FirstQualifying(groups[0], role).None?;
      forall g | 0 <= g < |groups[1..]| ensures FirstQualifying(groups[1..][g], role).None? {
        assert groups[1..][g] == groups[g + 1];
      }
      ResolveNoneQualifying(groups[1..], nodes, role);
    }
  }
}
