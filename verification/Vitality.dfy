/** The failure detector (src/network/vitality.rs). The clock reading is a parameter. */
module Vitality {
  import opened Words

  type NodeId = string

  datatype NodeStatus = Active | Suspect | Dead

  datatype Node = Node(lastSeen: u64, status: NodeStatus)

  type Nodes = map<NodeId, Node>

  const SUSPECT_AFTER := 5_000_000
  const DEAD_AFTER := 15_000_000

  datatype Event = Heartbeat(id: NodeId, now: u64) | Scan(now: u64)

  function Elapsed(now: u64, lastSeen: u64): u64 {
    SaturatingSub(now, lastSeen)
  }

  // ---------------------------------------------------------------------
  // One scan
  // ---------------------------------------------------------------------

  /** Both thresholds are looked at in one visit, so a node can go from active to dead at once. */
  function Visit(n: Node, now: u64): Node {
    var elapsed := Elapsed(now, n.lastSeen);
    var status := if elapsed >= SUSPECT_AFTER && n.status.Active? then Suspect else n.status;
    n.(status := if elapsed >= DEAD_AFTER && status.Suspect? then Dead else status)
  }

  function ScanNodes(nodes: Nodes, now: u64): Nodes {
    map id | id in nodes :: Visit(nodes[id], now)
  }

  predicate NewlyDead(nodes: Nodes, now: u64, id: NodeId) {
    id in nodes && !nodes[id].status.Dead? && Visit(nodes[id], now).status.Dead?
  }

  // ---------------------------------------------------------------------
  // Runs
  // ---------------------------------------------------------------------

  function Run(events: seq<Event>): Nodes {
    if events == [] then map[]
    else
      var before := Run(events[..|events| - 1]);
      match events[|events| - 1]
      case Heartbeat(id, now) => before[id := Node(now, Active)]
      case Scan(now) => ScanNodes(before, now)
  }

  /** The scan at `i` returns `id`. */
  predicate Reports(events: seq<Event>, i: nat, id: NodeId)
    requires i < |events|
  {
    events[i].Scan? && NewlyDead(Run(events[..i]), events[i].now, id)
  }

  /** `j` is the last heartbeat of `id` before `i`. */
  ghost predicate LastBeat(events: seq<Event>, i: nat, id: NodeId, j: nat)
    requires i <= |events|
  {
    && j < i && events[j].Heartbeat? && events[j].id == id
    && forall k :: j < k < i && events[k].Heartbeat? ==> events[k].id != id
  }

  /** Some scan after `j` and before `i` came at least `limit` after the heartbeat `j`. */
  ghost predicate ScannedAfter(events: seq<Event>, i: nat, j: nat, limit: nat)
    requires i <= |events| && j < |events|
  {
    exists k :: j < k < i && events[k].Scan? && events[k].now >= events[j].now + limit
  }

  ghost function StatusSince(events: seq<Event>, i: nat, j: nat): NodeStatus
    requires i <= |events| && j < |events|
  {
    if ScannedAfter(events, i, j, 15_000_000) then Dead
    else if ScannedAfter(events, i, j, 5_000_000) then Suspect
    else Active
  }

  lemma ScannedOneMore(events: seq<Event>, i: nat, j: nat, limit: nat)
    requires j < i < |events|
    ensures ScannedAfter(events, i + 1, j, limit) <==>
              ScannedAfter(events, i, j, limit) || (events[i].Scan? && events[i].now >= events[j].now + limit)
  {
    if ScannedAfter(events, i + 1, j, limit) {
      var k :| j < k < i + 1 && events[k].Scan? && events[k].now >= events[j].now + limit;
    }
  }

  lemma StatusOneMore(events: seq<Event>, i: nat, j: nat)
    requires j < i < |events| && events[j].Heartbeat?
    ensures Node(events[j].now, StatusSince(events, i + 1, j))
         == if events[i].Scan? then Visit(Node(events[j].now, StatusSince(events, i, j)), events[i].now)
            else Node(events[j].now, StatusSince(events, i, j))
  {
    ScannedOneMore(events, i, j, DEAD_AFTER);
    ScannedOneMore(events, i, j, SUSPECT_AFTER);
  }

  /** What is stored for a node depends on its last heartbeat and the scans since, and on nothing else. */
  ghost predicate Tracks(events: seq<Event>, i: nat, id: NodeId)
    requires i <= |events|
  {
    && (id in Run(events[..i]) ==> exists j: nat :: LastBeat(events, i, id, j))
    && (forall j: nat :: LastBeat(events, i, id, j) ==>
          id in Run(events[..i]) && Run(events[..i])[id] == Node(events[j].now, StatusSince(events, i, j)))
  }

  lemma TracksOneMore(events: seq<Event>, i: nat, id: NodeId)
    requires i < |events| && Tracks(events, i, id)
    ensures Tracks(events, i + 1, id)
  {
    assert events[..i + 1][..i] == events[..i];
    if events[i].Heartbeat? && events[i].id == id {
      assert LastBeat(events, i + 1, id, i);
      forall j: nat | LastBeat(events, i + 1, id, j)
        ensures Run(events[..i + 1])[id] == Node(events[j].now, StatusSince(events, i + 1, j))
      {
        assert j == i;
      }
    } else {
      assert forall j: nat :: LastBeat(events, i + 1, id, j) <==> LastBeat(events, i, id, j);
      forall j: nat | LastBeat(events, i, id, j)
        ensures id in Run(events[..i + 1])
        ensures Run(events[..i + 1])[id] == Node(events[j].now, StatusSince(events, i + 1, j))
      {
        StatusOneMore(events, i, j);
      }
    }
  }

  lemma {:induction false} RunTracks(events: seq<Event>, i: nat, id: NodeId)
    requires i <= |events|
    ensures Tracks(events, i, id)
  {
    if i > 0 {
      RunTracks(events, i - 1, id);
      TracksOneMore(events, i - 1, id);
    }
  }

  /**
   A scan reports a node exactly when it is the first scan at least 15 seconds
   after the node's last heartbeat, whatever the clock did in between.
   */
  lemma ReportedIff(events: seq<Event>, i: nat, id: NodeId)
    requires i < |events|
    ensures Reports(events, i, id) <==>
              events[i].Scan? && exists j: nat ::
                && LastBeat(events, i, id, j) && events[i].now >= events[j].now + 15_000_000
                && !ScannedAfter(events, i, j, 15_000_000)
  {
    RunTracks(events, i, id);
  }

  /** With no heartbeat since, a later scan comes after the same one. */
  lemma SeenByThen(events: seq<Event>, i: nat, i': nat, id: NodeId, j: nat, j': nat, limit: nat)
    requires i < i' <= |events| && LastBeat(events, i, id, j) && LastBeat(events, i', id, j') && j' <= i
    requires events[i].Scan? && events[i].now >= events[j].now + limit
    ensures j == j' && ScannedAfter(events, i', j', limit)
  {
  }

  /** Between two reports of a node there is a heartbeat of that node. */
  lemma ReportedOnce(events: seq<Event>, i: nat, i': nat, id: NodeId)
    requires i < i' < |events| && Reports(events, i, id) && Reports(events, i', id)
    ensures exists b :: i < b < i' && events[b].Heartbeat? && events[b].id == id
  {
    ReportedIff(events, i, id);
    ReportedIff(events, i', id);
    var j: nat :| LastBeat(events, i, id, j) && events[i].now >= events[j].now + 15_000_000;
    var j': nat :| LastBeat(events, i', id, j') && !ScannedAfter(events, i', j', 15_000_000);
    if j' <= i {
      SeenByThen(events, i, i', id, j, j', 15_000_000);
      assert false;
    }
  }

  function Rank(s: NodeStatus): nat {
    match s
    case Active => 0
    case Suspect => 1
    case Dead => 2
  }

  /** While a node sends no heartbeat its status never improves. */
  lemma {:induction false} StatusOnlyWorsens(events: seq<Event>, i: nat, i': nat, id: NodeId)
    requires i <= i' <= |events| && id in Run(events[..i])
    requires forall b :: i <= b < i' && events[b].Heartbeat? ==> events[b].id != id
    ensures id in Run(events[..i']) && Run(events[..i'])[id].lastSeen == Run(events[..i])[id].lastSeen
    ensures Rank(Run(events[..i])[id].status) <= Rank(Run(events[..i'])[id].status)
  {
    if i < i' {
      StatusOnlyWorsens(events, i, i' - 1, id);
      assert events[..i'][..i' - 1] == events[..i' - 1];
    }
  }

  // ---------------------------------------------------------------------
  // The code
  // ---------------------------------------------------------------------

  lemma RunSnoc(events: seq<Event>, e: Event)
    ensures Run(events + [e])
         == if e.Heartbeat? then Run(events)[e.id := Node(e.now, Active)] else ScanNodes(Run(events), e.now)
  {
    assert (events + [e])[..|events|] == events;
  }

  /** `history` is what happened so far, and is there for specification only. */
  class VitalityManager {
    var nodes: Nodes
    ghost var history: seq<Event>

    ghost predicate Valid()
      reads this
    {
      nodes == Run(history)
    }

    constructor ()
      ensures Valid() && history == []
    {
      nodes, history := map[], [];
    }

    method RecordHeartbeat(id: NodeId, now: u64)
      requires Valid()
      modifies this
      ensures Valid() && history == old(history) + [Heartbeat(id, now)]
      ensures LastBeat(history, |history|, id, |old(history)|)
    {
      RunSnoc(history, Heartbeat(id, now));
      nodes := nodes[id := Node(now, Active)];
      history := history + [Heartbeat(id, now)];
    }

    /** Lists the nodes this scan reports, each once, in the map's own order. */
    method CalculateUnresponsive(now: u64) returns (dead: seq<NodeId>)
      requires Valid()
      modifies this
      ensures Valid() && history == old(history) + [Scan(now)]
      ensures forall id :: id in dead <==> Reports(history, |old(history)|, id)
      ensures forall i, j :: 0 <= i < j < |dead| ==> dead[i] != dead[j]
    {
      dead := VisitAll(now);
      RunSnoc(history, Scan(now));
      assert (history + [Scan(now)])[..|history|] == history;
      history := history + [Scan(now)];
    }

    method VisitAll(now: u64) returns (dead: seq<NodeId>)
      modifies this`nodes
      ensures nodes == ScanNodes(old(nodes), now)
      ensures forall id :: id in dead <==> NewlyDead(old(nodes), now, id)
      ensures forall i, j :: 0 <= i < j < |dead| ==> dead[i] != dead[j]
    {
      ghost var was := nodes;
      dead := [];
      var left := nodes.Keys;
      while left != {}
        invariant left <= nodes.Keys == was.Keys
        invariant forall id <- was :: nodes[id] == if id in left then was[id] else Visit(was[id], now)
        invariant forall id :: id in dead <==> id !in left && NewlyDead(was, now, id)
        invariant forall i, j :: 0 <= i < j < |dead| ==> dead[i] != dead[j]
        decreases |left|
      {
        var id :| id in left;
        var node := nodes[id];
        var elapsed := SaturatingSub(now, node.lastSeen);
        if elapsed >= SUSPECT_AFTER && node.status == Active {
          node := node.(status := Suspect);
        }
        if elapsed >= DEAD_AFTER && node.status == Suspect {
          node := node.(status := Dead);
          dead := dead + [id];
        }
        nodes := nodes[id := node];
        left := left - {id};
      }
    }
  }
}
