/** The hub's registry of live nodes. */
module Registry {
  import opened Wrappers

  datatype Capability = Capability(name: string, valType: string, value: string)

  datatype NodeProfile = NodeProfile(
    nodeId: string,
    osPlatform: string,
    capabilities: seq<Capability>,
    lastSeen: nat,
    publicKey: string)

  type Nodes = map<string, NodeProfile>

  /** Every profile is stored under its own id. */
  ghost predicate Keyed(nodes: Nodes) {
    forall id | id in nodes :: nodes[id].nodeId == id
  }

  /** A profile stamped in the future survives every sweep. */
  predicate Survives(profile: NodeProfile, now: nat, threshold: nat) {
    now >= profile.lastSeen ==> now - profile.lastSeen < threshold
  }

  function Evicted(nodes: Nodes, now: nat, threshold: nat): Nodes {
    map id | id in nodes && Survives(nodes[id], now, threshold) :: nodes[id]
  }

  ghost predicate DistinctIds(list: seq<NodeProfile>) {
    forall i, j | 0 <= i < j < |list| :: list[i].nodeId != list[j].nodeId
  }

  /** `list` holds exactly the registered profiles, each once, in any order. */
  ghost predicate IsListing(list: seq<NodeProfile>, nodes: Nodes) {
    && DistinctIds(list)
    && (forall i | 0 <= i < |list| :: list[i].nodeId in nodes && nodes[list[i].nodeId] == list[i])
    && (forall id | id in nodes :: nodes[id] in list)
  }

  /** Two sweeps in a row, in either order of time, do what the later one does alone. */
  lemma {:induction false} SweepsCollapse(nodes: Nodes, first: nat, second: nat, threshold: nat)
    ensures Evicted(Evicted(nodes, first, threshold), second, threshold)
         == Evicted(nodes, if first <= second then second else first, threshold)
  {
  }

  class EphemeralRegistry {
    var nodes: Nodes

    ghost predicate Valid()
      reads this
    {
      Keyed(nodes)
    }

    constructor ()
      ensures Valid() && nodes == map[]
    {
      nodes := map[];
    }

    method RegisterNode(profile: NodeProfile)
      requires Valid()
      modifies this
      ensures Valid()
      ensures nodes == old(nodes)[profile.nodeId := profile]
    {
      nodes := nodes[profile.nodeId := profile];
    }

    method UnregisterNode(nodeId: string)
      requires Valid()
      modifies this
      ensures Valid()
      ensures nodes == old(nodes) - {nodeId}
    {
      nodes := nodes - {nodeId};
    }

    /** `retain` visits the entries one by one, in an order nobody can rely on. */
    method EvictOfflineNodes(now: nat, threshold: nat)
      requires Valid()
      modifies this
      ensures Valid()
      ensures nodes == Evicted(old(nodes), now, threshold)
      ensures forall id :: id in nodes <==>
        id in old(nodes) && (now < old(nodes)[id].lastSeen || now - old(nodes)[id].lastSeen < threshold)
      ensures forall id | id in nodes :: nodes[id] == old(nodes)[id]
    {
      ghost var before := nodes;
      var unvisited := nodes.Keys;
      while unvisited != {}
        invariant unvisited <= nodes.Keys <= before.Keys
        invariant forall id | id in nodes :: nodes[id] == before[id]
        invariant forall id | id in before ::
          id in nodes <==> id in unvisited || Survives(before[id], now, threshold)
      {
        var id :| id in unvisited;
        unvisited := unvisited - {id};
        if !Survives(nodes[id], now, threshold) {
          nodes := nodes - {id};
        }
      }
    }

    method GetNode(nodeId: string) returns (profile: Option<NodeProfile>)
      ensures profile == if nodeId in nodes then Some(nodes[nodeId]) else None
    {
      profile := if nodeId in nodes then Some(nodes[nodeId]) else None;
    }

    method ListNodes() returns (list: seq<NodeProfile>)
      requires Valid()
      ensures IsListing(list, nodes)
    {
      list := [];
      var unvisited := nodes.Keys;
      while unvisited != {}
        invariant unvisited <= nodes.Keys
        invariant DistinctIds(list)
        invariant forall i | 0 <= i < |list| ::
          list[i].nodeId in nodes && list[i].nodeId !in unvisited && nodes[list[i].nodeId] == list[i]
        invariant forall id | id in nodes && id !in unvisited :: nodes[id] in list
      {
        var id :| id in unvisited;
        unvisited := unvisited - {id};
        list := list + [nodes[id]];
      }
    }
  }
}
