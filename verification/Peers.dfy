/** Peer liveness and the leader that every node works out for itself (node/peers.py). */
module Peers {
  import opened Prelude
  import opened Consensus
  import opened Names

  class PeerTable {
    const selfId: NodeId
    const timeout: real
    var lastSeen: map<NodeId, real>
    var prevLeader: Option<NodeId>

    constructor (selfId: NodeId, timeout: real)
      ensures this.selfId == selfId && this.timeout == timeout && lastSeen == map[] && prevLeader == None
    {
      this.selfId, this.timeout, lastSeen, prevLeader := selfId, timeout, map[], None;
    }

    /** Seen within the timeout, and always the node itself. */
    function Alive(now: real): (alive: set<NodeId>)
      reads this
      ensures selfId in alive
    {
      (set n | n in lastSeen && now - lastSeen[n] <= timeout) + {selfId}
    }

    method MarkAlive(nodeId: NodeId, ts: real)
      modifies this`lastSeen
      ensures lastSeen == old(lastSeen)[nodeId := ts]
    {
      lastSeen := lastSeen[nodeId := ts];
    }

    method MarkGone(nodeId: NodeId)
      modifies this`lastSeen
      ensures lastSeen == old(lastSeen) - {nodeId}
      ensures forall now :: nodeId != selfId ==> nodeId !in Alive(now)
    {
      lastSeen := map n | n in lastSeen && n != nodeId :: lastSeen[n];
    }

    function AlivePeers(now: real): (names: seq<NodeId>)
      reads this
      ensures forall n :: n in names <==> n in Alive(now)
      ensures forall n :: n in names <==> n == selfId || (n in lastSeen && now - lastSeen[n] <= timeout)
      ensures |names| == |Alive(now)| && Sorted(names)
    {
      SortSetSorted(Alive(now));
      SortSet(Alive(now))
    }

    function Leader(now: real): Option<NodeId>
      reads this
    {
      var alive := AlivePeers(now);
      if alive != [] then Some(alive[0]) else None
    }

    /** There is always a leader, the least name alive. */
    lemma LeaderIsLeast(now: real)
      ensures Leader(now).Some? && IsLeast(Leader(now).value, Alive(now))
    {
      assert selfId in AlivePeers(now);
      SortedFirst(Alive(now), AlivePeers(now));
    }

    predicate IsLeader(now: real)
      reads this
    {
      Leader(now) == Some(selfId)
    }

    /** Reports a leader exactly when it is not the one of the last call. */
    method LeaderChanged(now: real) returns (changed: Option<NodeId>)
      modifies this`prevLeader
      ensures prevLeader == Leader(now)
      ensures changed == if old(prevLeader) == Leader(now) then None else Leader(now)
    {
      var current := Leader(now);
      if current != prevLeader {
        prevLeader := current;
        return current;
      }
      return None;
    }
  }

  lemma SortedFirst(names: set<NodeId>, sorted: seq<NodeId>)
    requires Sorted(sorted) && sorted != [] && forall n :: n in sorted <==> n in names
    ensures IsLeast(sorted[0], names)
  {
    Ordered(sorted[0], sorted[0]);
  }

  /** No election: nodes whose tables show the same peers alive, at whatever times they look, name the
      same leader, and exactly one of them takes itself to be it. */
  lemma OneLeader(tables: map<NodeId, PeerTable>, now: map<NodeId, real>, alive: set<NodeId>)
    requires alive != {} && alive <= tables.Keys && alive <= now.Keys
    requires forall i :: i in alive ==> tables[i].selfId == i && tables[i].Alive(now[i]) == alive
    ensures forall i, j :: i in alive && j in alive ==> tables[i].Leader(now[i]) == tables[j].Leader(now[j])
    ensures exists i :: i in alive && tables[i].IsLeader(now[i])
    ensures forall i, j :: i in alive && j in alive && tables[i].IsLeader(now[i]) && tables[j].IsLeader(now[j]) ==>
        i == j
  {
    var least := Least(alive);
    forall i | i in alive
      ensures tables[i].Leader(now[i]) == Some(least)
    {
      tables[i].LeaderIsLeast(now[i]);
      LeastUnique(alive, tables[i].Leader(now[i]).value, least);
    }
    assert tables[least].IsLeader(now[least]);
  }

  /** Two leaders at once mean that the later-named one does not see the other alive. */
  lemma SplitBrain(a: PeerTable, b: PeerTable, nowA: real, nowB: real)
    requires a.IsLeader(nowA) && b.IsLeader(nowB) && AtMost(a.selfId, b.selfId) && a.selfId != b.selfId
    ensures a.selfId !in b.Alive(nowB)
  {
    a.LeaderIsLeast(nowA);
    b.LeaderIsLeast(nowB);
    Ordered(a.selfId, b.selfId);
  }
}
