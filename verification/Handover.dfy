/**
 What a teleport takes from a node. The source (src/teleport.rs) asks its
 sandbox for the agent by alias, once for the state and once for the manifest;
 each time the registry picks an entry by the clock. When the target has
 acknowledged everything, the alias is deregistered with all of its entries.
 Every question and every send is awaited, and the node goes on serving other
 requests meanwhile, calls to the same alias among them.
 */
module Handover {
  import opened Words
  import opened Wrappers

  import opened AgentHistory
  import Teleport

  /** An alias is not an id of this node. */
  const NO_ID := Foreign(0)

  /** What the node does before a lookup, where the clock then stands, and what a peer would answer. */
  datatype Lookup = Lookup(before: seq<Op>, clock: nat, peer: Option<TetMetadata>)

  /** The questions asked before anything is sent. */
  function Prepared(engine: Engine, n: Node, alias: Alias, first: Lookup, second: Lookup): (Node, Teleport.Local) {
    if ResolveLocal(n.registry, alias, 0).None? then (n, Teleport.Unknown)
    else
      var (m, id) := DoSnapshot(Run(engine, n, first.before), NO_ID, alias, first.clock, first.peer);
      if id.None? || id.value !in m.snapshots then (m, Teleport.NotExported)
      else
        var later := Run(engine, m, second.before);
        var memory := FindActive(later, NO_ID, alias, second.clock, second.peer);
        if memory.None? then (later, Teleport.NotExported)
        else (later, Teleport.Known(id.value, Teleport.Import(m.snapshots[id.value], memory.value.manifest)))
  }

  /** The same as operations of the node. */
  function Asking(alias: Alias, first: Lookup, second: Lookup): seq<Op> {
    first.before + [TakeSnapshot(NO_ID, alias, first.clock, first.peer)] + second.before
  }

  function Picked(entries: seq<TetMetadata>, clock: nat): TetMetadata
    requires entries != []
  {
    entries[clock % |entries|]
  }

  function StateOf(n: Node, e: TetMetadata): Snapshot
    requires NamesItsState(n, e)
  {
    n.active[e.tetId].snapshot
  }

  lemma PickedIsGood(n: Node, alias: Alias, clock: nat)
    requires Valid(n) && Entries(n.registry, alias) != []
    ensures NamesItsState(n, Picked(Entries(n.registry, alias), clock))
  {
    assert Picked(Entries(n.registry, alias), clock) in n.registry[alias];
  }

  lemma {:induction false} RunConcat(engine: Engine, n: Node, a: seq<Op>, b: seq<Op>)
    ensures Run(engine, n, a + b) == Run(engine, Run(engine, n, a), b)
    decreases |b|
  {
    if b == [] {
      assert a + b == a;
    } else {
      var k := |b| - 1;
      assert (a + b)[..|a| + k] == a + b[..k];
      RunConcat(engine, n, a, b[..k]);
    }
  }

  lemma AskingRuns(engine: Engine, n: Node, alias: Alias, first: Lookup, second: Lookup)
    ensures var asked := Run(engine, n, first.before);
            Run(engine, n, Asking(alias, first, second))
            == Run(engine, DoSnapshot(asked, NO_ID, alias, first.clock, first.peer).0, second.before)
  {
    var take := TakeSnapshot(NO_ID, alias, first.clock, first.peer);
    RunConcat(engine, n, first.before + [take], second.before);
    RunConcat(engine, n, first.before, [take]);
    assert [take][..0] == [];
  }

  /**
   The state of one entry travels with the manifest of another: each is the one
   that the clock picks among those registered at that moment.
   */
  lemma PreparedIs(engine: Engine, n: Node, alias: Alias, first: Lookup, second: Lookup)
    requires Valid(n)
    ensures var local := Prepared(engine, n, alias, first, second).1;
            var asked, later := Run(engine, n, first.before), Run(engine, n, Asking(alias, first, second));
            var states, licences := Entries(asked.registry, alias), Entries(later.registry, alias);
            && (Entries(n.registry, alias) == [] <==> local.Unknown?)
            && (Entries(n.registry, alias) != [] && states != [] && licences != [] ==>
                  && NamesItsState(asked, Picked(states, first.clock))
                  && NamesItsState(later, Picked(licences, second.clock))
                  && local.Known? && Prepared(engine, n, alias, first, second).0 == later
                  && local.agent.snapshot == StateOf(asked, Picked(states, first.clock))
                  && local.agent.manifest == later.active[Picked(licences, second.clock).tetId].manifest)
  {
    var asked, later := Run(engine, n, first.before), Run(engine, n, Asking(alias, first, second));
    RunKeeps(engine, n, first.before);
    RunKeeps(engine, n, Asking(alias, first, second));
    AskingRuns(engine, n, alias, first, second);
    if Entries(asked.registry, alias) != [] {
      PickedIsGood(asked, alias, first.clock);
    }
    if Entries(later.registry, alias) != [] {
      PickedIsGood(later, alias, second.clock);
    }
  }

  // ---------------------------------------------------------------------
  // When nothing is lost
  // ---------------------------------------------------------------------

  /** While the source sends, its node does other things. */
  datatype Happening = Here(op: Op) | Sent(fate: Teleport.Fate)

  datatype Moving = Moving(node: Node, sending: Teleport.State)

  /** The source's last step deregisters the alias. */
  function Happens(engine: Engine, codec: Codec<Snapshot>, packets: seq<Teleport.Packet>, alias: Alias, m: Moving,
                   h: Happening): Moving
  {
    match h
    case Here(op) => m.(node := Do(engine, m.node, op))
    case Sent(fate) =>
      var sending := Teleport.Next(codec, packets, m.sending, fate);
      Moving(if m.sending.registered && !sending.registered then Do(engine, m.node, Deregister(alias)) else m.node,
             sending)
  }

  /** The source's last step leaves it no entry of the alias, and every other alias as it was. */
  lemma LettingGoForgets(engine: Engine, codec: Codec<Snapshot>, packets: seq<Teleport.Packet>, alias: Alias,
                         m: Moving, fate: Teleport.Fate, other: Alias)
    requires m.sending.registered && !Teleport.Next(codec, packets, m.sending, fate).registered
    ensures var left := Happens(engine, codec, packets, alias, m, Sent(fate)).node;
            && Entries(left.registry, other) == (if other == alias then [] else Entries(m.node.registry, other))
            && left.snapshots == m.node.snapshots && left.active == m.node.active
  {
  }

  function Moved(engine: Engine, codec: Codec<Snapshot>, packets: seq<Teleport.Packet>, alias: Alias, m: Moving,
                 hs: seq<Happening>): Moving
    decreases |hs|
  {
    if hs == [] then m
    else
      Happens(engine, codec, packets, alias, Moved(engine, codec, packets, alias, m, hs[..|hs| - 1]), hs[|hs| - 1])
  }

  /** The entries that the alias had when it was deregistered at the end of the hand-off. */
  function Dropped(engine: Engine, codec: Codec<Snapshot>, packets: seq<Teleport.Packet>, alias: Alias, m: Moving,
                   hs: seq<Happening>): seq<TetMetadata>
    decreases |hs|
  {
    if hs == [] then []
    else
      var before := Moved(engine, codec, packets, alias, m, hs[..|hs| - 1]);
      if before.sending.registered && !Moved(engine, codec, packets, alias, m, hs).sending.registered then
        Entries(before.node.registry, alias)
      else Dropped(engine, codec, packets, alias, m, hs[..|hs| - 1])
  }

  function Fates(hs: seq<Happening>): seq<Teleport.Fate>
    decreases |hs|
  {
    if hs == [] then []
    else Fates(hs[..|hs| - 1]) + if hs[|hs| - 1].Sent? then [hs[|hs| - 1].fate] else []
  }

  function Ops(hs: seq<Happening>): seq<Op>
    decreases |hs|
  {
    if hs == [] then [] else Ops(hs[..|hs| - 1]) + if hs[|hs| - 1].Here? then [hs[|hs| - 1].op] else []
  }

  /** What the node does before the source takes one step more than `steps`. */
  function OpsWithin(hs: seq<Happening>, steps: nat): seq<Op>
    decreases |hs|
  {
    if hs == [] || |Fates(hs)| <= steps then Ops(hs) else OpsWithin(hs[..|hs| - 1], steps)
  }

  predicate Completes(fates: seq<Teleport.Fate>, sends: nat) {
    |fates| > sends && Teleport.Smooth(fates, sends, sends)
  }

  /** What a run of the node and the protocol side by side keeps. */
  ghost predicate Tracks(engine: Engine, codec: Codec<Snapshot>, packets: seq<Teleport.Packet>, alias: Alias, n: Node,
                         t: Teleport.Target, hs: seq<Happening>)
  {
    var start := Moving(n, Teleport.Start(t));
    var m := Moved(engine, codec, packets, alias, start, hs);
    var dropped := Dropped(engine, codec, packets, alias, start, hs);
    && m.sending == Teleport.Run(codec, packets, Teleport.Start(t), Fates(hs))
    && Valid(m.node)
    && if m.sending.registered then m.node == Run(engine, n, Ops(hs)) && dropped == []
       else
         var end := Run(engine, n, OpsWithin(hs, |packets|));
         |Fates(hs)| > |packets| && Keeps(end, m.node) && dropped == Entries(end.registry, alias)
  }

  lemma TracksHere(engine: Engine, codec: Codec<Snapshot>, packets: seq<Teleport.Packet>, alias: Alias, n: Node,
                   t: Teleport.Target, hs: seq<Happening>)
    requires hs != [] && hs[|hs| - 1].Here?
    requires Tracks(engine, codec, packets, alias, n, t, hs[..|hs| - 1])
    ensures Tracks(engine, codec, packets, alias, n, t, hs)
  {
    var before, op := hs[..|hs| - 1], hs[|hs| - 1].op;
    var m := Moved(engine, codec, packets, alias, Moving(n, Teleport.Start(t)), before);
    DoKeeps(engine, m.node, op);
    assert Fates(hs) == Fates(before);
    assert Ops(hs)[..|Ops(hs)| - 1] == Ops(before);
  }

  /** The source lets go after as many steps as there are packets, and one more. */
  ghost predicate InStep(packets: seq<Teleport.Packet>, s: Teleport.State, steps: nat) {
    s.registered && !s.failed && s.sent >= |packets| ==> steps == |packets|
  }

  lemma SentRuns(codec: Codec<Snapshot>, packets: seq<Teleport.Packet>, t: Teleport.Target, hs: seq<Happening>)
    requires hs != [] && hs[|hs| - 1].Sent?
    ensures var before := Teleport.Run(codec, packets, Teleport.Start(t), Fates(hs[..|hs| - 1]));
            && Teleport.Run(codec, packets, Teleport.Start(t), Fates(hs))
               == Teleport.Next(codec, packets, before, hs[|hs| - 1].fate)
            && |Fates(hs)| == |Fates(hs[..|hs| - 1])| + 1
            && Ops(hs) == Ops(hs[..|hs| - 1])
  {
    assert Fates(hs)[..|Fates(hs)| - 1] == Fates(hs[..|hs| - 1]);
  }

  lemma TracksSent(engine: Engine, codec: Codec<Snapshot>, packets: seq<Teleport.Packet>, alias: Alias, n: Node,
                   t: Teleport.Target, hs: seq<Happening>)
    requires hs != [] && hs[|hs| - 1].Sent?
    requires Tracks(engine, codec, packets, alias, n, t, hs[..|hs| - 1])
    requires InStep(packets, Teleport.Run(codec, packets, Teleport.Start(t), Fates(hs[..|hs| - 1])),
                    |Fates(hs[..|hs| - 1])|)
    ensures Tracks(engine, codec, packets, alias, n, t, hs)
  {
    var before := hs[..|hs| - 1];
    var m := Moved(engine, codec, packets, alias, Moving(n, Teleport.Start(t)), before);
    DoKeeps(engine, m.node, Deregister(alias));
    SentRuns(codec, packets, t, hs);
    assert m.sending.registered || OpsWithin(hs, |packets|) == OpsWithin(before, |packets|);
  }

  lemma {:induction false} RunTracks(engine: Engine, codec: Codec<Snapshot>, id: Id, agent: Teleport.Import,
                                     alias: Alias, n: Node, t: Teleport.Target, hs: seq<Happening>)
    requires Valid(n) && Teleport.Ready(codec, agent, t)
    ensures Tracks(engine, codec, Teleport.Packets(codec, id, agent), alias, n, t, hs)
    decreases |hs|
  {
    if hs != [] {
      RunTracks(engine, codec, id, agent, alias, n, t, hs[..|hs| - 1]);
      if hs[|hs| - 1].Here? {
        TracksHere(engine, codec, Teleport.Packets(codec, id, agent), alias, n, t, hs);
      } else {
        Teleport.HandsOverIff(codec, id, agent, t, Fates(hs[..|hs| - 1]));
        Teleport.HandOffIsSafe(codec, id, agent, t, Fates(hs[..|hs| - 1]));
        TracksSent(engine, codec, Teleport.Packets(codec, id, agent), alias, n, t, hs);
      }
    }
  }

  /** The target has imported the state that the entry names. */
  predicate KeptBy(n: Node, e: TetMetadata, t: Teleport.Target) {
    NamesItsState(n, e) && exists i <- t.imported :: i.snapshot == StateOf(n, e)
  }

  lemma KeptAfter(n: Node, e: TetMetadata, t: Teleport.Target, agent: Teleport.Import)
    requires NamesItsState(n, e)
    ensures KeptBy(n, e, t.(imported := t.imported + [agent])) <==> StateOf(n, e) == agent.snapshot || KeptBy(n, e, t)
  {
    assert agent in t.imported + [agent];
    assert forall i :: i in t.imported + [agent] <==> i in t.imported || i == agent;
  }

  /**
   Every entry that the hand-off drops holds a state the target keeps exactly
   when the hand-off does not complete, or every entry that the alias has then,
   just before the source's last step, holds the state that was sent (or one the
   target had).
   */
  lemma NothingIsLostIff(engine: Engine, codec: Codec<Snapshot>, id: Id, agent: Teleport.Import, alias: Alias, n: Node,
                         t: Teleport.Target, hs: seq<Happening>)
    requires Valid(n) && Teleport.Ready(codec, agent, t)
    ensures var packets := Teleport.Packets(codec, id, agent);
            var m := Moved(engine, codec, packets, alias, Moving(n, Teleport.Start(t)), hs);
            var dropped := Dropped(engine, codec, packets, alias, Moving(n, Teleport.Start(t)), hs);
            var end := Run(engine, n, OpsWithin(hs, |packets|));
            && m.sending == Teleport.Run(codec, packets, Teleport.Start(t), Fates(hs))
            && dropped == (if Completes(Fates(hs), |packets|) then Entries(end.registry, alias) else [])
            && ((forall e <- dropped :: KeptBy(m.node, e, m.sending.target)) <==>
                  !Completes(Fates(hs), |packets|) || forall e <- Entries(end.registry, alias) ::
                    NamesItsState(end, e) && (StateOf(end, e) == agent.snapshot || KeptBy(end, e, t)))
  {
    var packets := Teleport.Packets(codec, id, agent);
    var m := Moved(engine, codec, packets, alias, Moving(n, Teleport.Start(t)), hs);
    var end := Run(engine, n, OpsWithin(hs, |packets|));
    RunTracks(engine, codec, id, agent, alias, n, t, hs);
    Teleport.HandsOverIff(codec, id, agent, t, Fates(hs));
    RunKeeps(engine, n, OpsWithin(hs, |packets|));
    if !m.sending.registered {
      forall e <- Entries(end.registry, alias)
        ensures NamesItsState(end, e)
        ensures KeptBy(m.node, e, m.sending.target) <==> StateOf(end, e) == agent.snapshot || KeptBy(end, e, t)
      {
        assert NamesItsState(end, e);
        KeptAfter(m.node, e, t, agent);
      }
    }
  }

  /**
   By way of a registry there is one send, the notice: the entries that the alias
   has when it is answered are kept exactly as far as they hold what the target
   pulled (or what it had).
   */
  lemma NoticeDropsIff(engine: Engine, n: Node, alias: Alias, t: Teleport.Target, manifest: Manifest,
                       pulled: Option<Snapshot>, fate: Teleport.Fate, during: seq<Op>)
    requires Valid(n)
    ensures var (t', registered) := Teleport.AfterNotice(t, manifest, pulled, fate);
            var end := Run(engine, n, during);
            && (registered <==> !fate.delivered || !fate.acknowledged || fate.importFails || pulled.None?)
            && (!registered ==>
                  ((forall e <- Entries(end.registry, alias) :: KeptBy(end, e, t')) <==>
                     forall e <- Entries(end.registry, alias) ::
                       NamesItsState(end, e) && (Some(StateOf(end, e)) == pulled || KeptBy(end, e, t))))
  {
    var end := Run(engine, n, during);
    RunKeeps(engine, n, during);
    if !Teleport.AfterNotice(t, manifest, pulled, fate).1 {
      forall e <- Entries(end.registry, alias)
        ensures NamesItsState(end, e)
        ensures KeptBy(end, e, Teleport.AfterNotice(t, manifest, pulled, fate).0)
           <==> Some(StateOf(end, e)) == pulled || KeptBy(end, e, t)
      {
        assert NamesItsState(end, e);
        KeptAfter(end, e, t, Teleport.Import(pulled.value, manifest));
      }
    }
  }

  // ---------------------------------------------------------------------
  // An agent booted once
  // ---------------------------------------------------------------------

  lemma {:induction false} HistoryStays(engine: Engine, a: seq<Op>, b: seq<Op>, alias: Alias)
    requires History(engine, a, alias).Some?
    ensures History(engine, a + b, alias).Some?
    decreases |b|
  {
    if b == [] {
      assert a + b == a;
    } else {
      assert (a + b)[..|a + b| - 1] == a + b[..|b| - 1];
      HistoryStays(engine, a, b[..|b| - 1], alias);
    }
  }

  lemma BootedOnceFirst(engine: Engine, a: seq<Op>, b: seq<Op>, alias: Alias)
    requires BootedOnce(engine, a + b, alias)
    ensures BootedOnce(engine, a, alias)
  {
    forall i | 0 <= i < |a| ensures a[i] == (a + b)[i] && a[..i] == (a + b)[..i] {
    }
    forall op <- a ensures op in a + b {
    }
  }

  lemma OnlyEntry(n: Node, alias: Alias, s: Snapshot)
    requires Valid(n) && Shows(n, alias, Some(s))
    ensures |Entries(n.registry, alias)| == 1
    ensures forall e <- Entries(n.registry, alias) :: NamesItsState(n, e) && StateOf(n, e) == s
  {
    assert n.registry[alias][0] in n.registry[alias];
  }

  /** The one entry that is dropped is lost, unless it holds what was sent or what the target had. */
  lemma LastStateIsLostIff(engine: Engine, codec: Codec<Snapshot>, id: Id, agent: Teleport.Import, alias: Alias,
                           ops: seq<Op>, t: Teleport.Target, hs: seq<Happening>)
    requires Teleport.Ready(codec, agent, t)
    requires BootedOnce(engine, ops + OpsWithin(hs, |Teleport.Packets(codec, id, agent)|), alias)
    requires History(engine, ops, alias).Some?
    ensures var packets := Teleport.Packets(codec, id, agent);
            var start := Moving(Run(engine, EMPTY, ops), Teleport.Start(t));
            var m := Moved(engine, codec, packets, alias, start, hs);
            var state := History(engine, ops + OpsWithin(hs, |packets|), alias);
            && state.Some?
            && ((exists e <- Dropped(engine, codec, packets, alias, start, hs) :: !KeptBy(m.node, e, m.sending.target))
                <==> Completes(Fates(hs), |packets|) && state != Some(agent.snapshot)
                     && forall i <- t.imported :: Some(i.snapshot) != state)
  {
    var n, packets := Run(engine, EMPTY, ops), Teleport.Packets(codec, id, agent);
    var during := OpsWithin(hs, |packets|);
    RunKeeps(engine, EMPTY, ops);
    NothingIsLostIff(engine, codec, id, agent, alias, n, t, hs);
    RunConcat(engine, EMPTY, ops, during);
    LinearHistory(engine, ops + during, alias);
    HistoryStays(engine, ops, during, alias);
    RunKeeps(engine, EMPTY, ops + during);
    OnlyEntry(Run(engine, EMPTY, ops + during), alias, History(engine, ops + during, alias).value);
    assert Entries(Run(engine, EMPTY, ops + during).registry, alias)[0]
           in Entries(Run(engine, EMPTY, ops + during).registry, alias);
  }

  /** What is sent is the state that the completed runs had led to when the snapshot was taken. */
  lemma KnownIsHistory(engine: Engine, ops: seq<Op>, alias: Alias, first: Lookup, second: Lookup, during: seq<Op>)
    requires BootedOnce(engine, ops + Asking(alias, first, second) + during, alias)
    ensures var (n, local) := Prepared(engine, Run(engine, EMPTY, ops), alias, first, second);
            && (local.Known? <==> History(engine, ops, alias).Some?)
            && (local.Known? ==>
                  && n == Run(engine, EMPTY, ops + Asking(alias, first, second))
                  && History(engine, ops + Asking(alias, first, second), alias).Some?
                  && Some(local.agent.snapshot) == History(engine, ops + first.before, alias)
                  && |Entries(n.registry, alias)| == 1 && Entries(n.registry, alias)[0].tetId in n.active
                  && local.agent.manifest == n.active[Entries(n.registry, alias)[0].tetId].manifest)
  {
    var n, asking := Run(engine, EMPTY, ops), Asking(alias, first, second);
    var rest := [TakeSnapshot(NO_ID, alias, first.clock, first.peer)] + second.before;
    assert ops + asking == ops + first.before + rest;
    BootedOnceFirst(engine, ops + asking, during, alias);
    BootedOnceFirst(engine, ops + first.before, rest, alias);
    BootedOnceFirst(engine, ops, first.before, alias);
    RunConcat(engine, EMPTY, ops, first.before);
    RunConcat(engine, EMPTY, ops, asking);
    RunKeeps(engine, EMPTY, ops);
    RunKeeps(engine, EMPTY, ops + first.before);
    RunKeeps(engine, EMPTY, ops + asking);
    LinearHistory(engine, ops, alias);
    PreparedIs(engine, n, alias, first, second);
    if History(engine, ops, alias).Some? {
      HistoryStays(engine, ops, first.before, alias);
      HistoryStays(engine, ops + first.before, rest, alias);
      LinearHistory(engine, ops + first.before, alias);
      LinearHistory(engine, ops + asking, alias);
      OnlyEntry(Run(engine, EMPTY, ops + first.before), alias, History(engine, ops + first.before, alias).value);
      OnlyEntry(Run(engine, EMPTY, ops + asking), alias, History(engine, ops + asking, alias).value);
    }
  }

  /**
   For an agent booted once and driven by calls: the state it has when it is
   given up is lost exactly when the hand-off completes, a run of it that ended
   after the snapshot led elsewhere, and the target had not got that state before.
   */
  lemma LateRunIsLostIff(engine: Engine, codec: Codec<Snapshot>, ops: seq<Op>, alias: Alias, first: Lookup,
                         second: Lookup, t: Teleport.Target, hs: seq<Happening>)
    requires Prepared(engine, Run(engine, EMPTY, ops), alias, first, second).1.Known?
    requires var local := Prepared(engine, Run(engine, EMPTY, ops), alias, first, second).1;
             && Teleport.Ready(codec, local.agent, t)
             && BootedOnce(engine, ops + Asking(alias, first, second)
                             + OpsWithin(hs, |Teleport.Packets(codec, local.snapshotId, local.agent)|), alias)
    ensures var (n, local) := Prepared(engine, Run(engine, EMPTY, ops), alias, first, second);
            var packets := Teleport.Packets(codec, local.snapshotId, local.agent);
            var start := Moving(n, Teleport.Start(t));
            var m := Moved(engine, codec, packets, alias, start, hs);
            var state := History(engine, ops + Asking(alias, first, second) + OpsWithin(hs, |packets|), alias);
            (exists e <- Dropped(engine, codec, packets, alias, start, hs) :: !KeptBy(m.node, e, m.sending.target))
            <==> Completes(Fates(hs), |packets|) && state != History(engine, ops + first.before, alias)
                 && forall i <- t.imported :: Some(i.snapshot) != state
  {
    var local := Prepared(engine, Run(engine, EMPTY, ops), alias, first, second).1;
    var asked := ops + Asking(alias, first, second);
    KnownIsHistory(engine, ops, alias, first, second,
                   OpsWithin(hs, |Teleport.Packets(codec, local.snapshotId, local.agent)|));
    LastStateIsLostIff(engine, codec, local.snapshotId, local.agent, alias, asked, t, hs);
  }

  // ---------------------------------------------------------------------
  // Two ways to lose a state
  // ---------------------------------------------------------------------

  function Echo(wasm: Bytes, was: Option<Bytes>, input: Bytes): Option<Bytes> {
    Some(input)
  }

  function BootRequest(alias: Alias, input: Bytes): Request {
    Request(Some([]), Some(alias), None, Some(Manifest(alias, true)), 0, false, input)
  }

  lemma RunOne(engine: Engine, n: Node, op: Op)
    ensures Run(engine, n, [op]) == Do(engine, n, op)
  {
    assert [op][..0] == [];
  }

  lemma EchoBoots(n: Node, alias: Alias, input: Bytes)
    requires Valid(n)
    ensures var m := Do(Echo, n, Execute(BootRequest(alias, input)));
            && Valid(m) && m.nextId == n.nextId + 2
            && m.active == n.active[Local(n.nextId) := Memory(Snapshot([], input), Manifest(alias, true))]
            && Entries(m.registry, alias) == Entries(n.registry, alias) + [NextEntry(n)]
  {
    var req := BootRequest(alias, input);
    assert DoExecute(Echo, n, req) == (Finished(n, req, Snapshot([], input)), Ran(Local(n.nextId)));
    DoKeeps(Echo, n, Execute(req));
    BootAppends(Echo, n, req, alias);
  }

  /** An alias booted twice has two states, of which a teleport takes one. */
  lemma TwoBootsTwoStates()
    ensures var n := Run(Echo, EMPTY, [Execute(BootRequest("a", [1])), Execute(BootRequest("a", [2]))]);
            && Entries(n.registry, "a") == [TetMetadata(Local(0), true, Some(Local(1))),
                                            TetMetadata(Local(2), true, Some(Local(3)))]
            && Local(0) in n.active && n.active[Local(0)].snapshot == Snapshot([], [1])
            && Local(2) in n.active && n.active[Local(2)].snapshot == Snapshot([], [2])
  {
    var first, second := Execute(BootRequest("a", [1])), Execute(BootRequest("a", [2]));
    EchoBoots(EMPTY, "a", [1]);
    EchoBoots(Do(Echo, EMPTY, first), "a", [2]);
    assert [first, second][..1] == [first];
    RunOne(Echo, EMPTY, first);
  }

  const NOW := Lookup([], 0, None)

  /** A call that runs as soon as the questions are answered, and then `k` sends that all go well. */
  function CallThenSends(call: Op, rehash: Teleport.Rehash, k: nat): seq<Happening> {
    if k == 0 then [Here(call)]
    else CallThenSends(call, rehash, k - 1) + [Sent(Teleport.Fate(true, true, rehash, false))]
  }

  lemma {:induction false} CallIsFirst(call: Op, rehash: Teleport.Rehash, k: nat, steps: nat)
    ensures var hs := CallThenSends(call, rehash, k);
            && Ops(hs) == OpsWithin(hs, steps) == [call] && |Fates(hs)| == k
            && forall f <- Fates(hs) :: f == Teleport.Fate(true, true, rehash, false)
  {
    var hs := CallThenSends(call, rehash, k);
    if k == 0 {
      assert hs[..0] == [];
    } else {
      CallIsFirst(call, rehash, k - 1, steps);
      assert hs[..|hs| - 1] == CallThenSends(call, rehash, k - 1);
    }
  }

  lemma OneEntryPrepared(engine: Engine, n: Node, alias: Alias, e: TetMetadata)
    requires Valid(n) && Entries(n.registry, alias) == [e]
    ensures NamesItsState(n, e) && NO_ID !in n.active
    ensures Prepared(engine, n, alias, NOW, NOW)
         == (Stored(n, StateOf(n, e)),
             Teleport.Known(Local(n.nextId), Teleport.Import(StateOf(n, e), n.active[e.tetId].manifest)))
  {
    assert e in n.registry[alias];
  }

  lemma EchoCalls(n: Node, alias: Alias, e: TetMetadata, input: Bytes)
    requires Valid(n) && Entries(n.registry, alias) == [e] && NamesItsState(n, e)
    ensures var m := Run(Echo, n, [Call(alias, 0, None, 0, false, input)]);
            && Entries(m.registry, alias) == [NextEntry(n)]
            && Local(n.nextId) in m.active && m.active[Local(n.nextId)].snapshot == Snapshot(StateOf(n, e).wasm, input)
  {
    RunOne(Echo, n, Call(alias, 0, None, 0, false, input));
    CallSwapsEntry(Echo, n, alias, 0, None, 0, false, input);
  }

  /** What `Prepared` makes of an agent just booted with input 1, and the node after a call with input 2. */
  lemma BootAskCall()
    ensures var booted := Run(Echo, EMPTY, [Execute(BootRequest("a", [1]))]);
            var (n, local) := Prepared(Echo, booted, "a", NOW, NOW);
            var end := Run(Echo, n, [Call("a", 0, None, 0, false, [2])]);
            && Valid(n) && local == Teleport.Known(Local(2), Teleport.Import(Snapshot([], [1]), Manifest("a", true)))
            && Entries(end.registry, "a") == [TetMetadata(Local(3), true, Some(Local(4)))]
            && Local(3) in end.active && end.active[Local(3)].snapshot == Snapshot([], [2])
  {
    var booted := Run(Echo, EMPTY, [Execute(BootRequest("a", [1]))]);
    EchoBoots(EMPTY, "a", [1]);
    RunOne(Echo, EMPTY, Execute(BootRequest("a", [1])));
    OneEntryPrepared(Echo, booted, "a", NextEntry(EMPTY));
    StoredKeeps(booted, Snapshot([], [1]));
    EchoCalls(Stored(booted, Snapshot([], [1])), "a", NextEntry(EMPTY), [2]);
  }

  lemma CallThenSmooth(engine: Engine, codec: Codec<Snapshot>, id: Id, agent: Teleport.Import, alias: Alias, n: Node,
                       call: Op, rehash: Teleport.Rehash)
    requires Valid(n) && Teleport.Ready(codec, agent, Teleport.Target([], []))
    ensures var packets := Teleport.Packets(codec, id, agent);
            var start := Moving(n, Teleport.Start(Teleport.Target([], [])));
            var hs := CallThenSends(call, rehash, |packets| + 1);
            var m, end := Moved(engine, codec, packets, alias, start, hs), Run(engine, n, [call]);
            && !m.sending.registered && m.sending.target.imported == [agent] && Keeps(end, m.node)
            && Dropped(engine, codec, packets, alias, start, hs) == Entries(end.registry, alias)
  {
    var t, packets := Teleport.Target([], []), Teleport.Packets(codec, id, agent);
    var hs := CallThenSends(call, rehash, |packets| + 1);
    CallIsFirst(call, rehash, |packets| + 1, |packets|);
    RunTracks(engine, codec, id, agent, alias, n, t, hs);
    Teleport.HandsOverIff(codec, id, agent, t, Fates(hs));
    forall i | 0 <= i < |packets|
      ensures Fates(hs)[i] == Teleport.Fate(true, true, rehash, false)
    {
      assert Fates(hs)[i] in Fates(hs);
    }
    assert [] + [agent] == [agent];
  }

  /** The call is answered and its state is gone: the target has the one before it. */
  lemma LateCallIsLost(codec: Codec<Snapshot>, rehash: Teleport.Rehash)
    requires codec.Correct() && |Teleport.Split(codec.encode(Snapshot([], [1])), 0)| <= U32
    ensures var (n, local) := Prepared(Echo, Run(Echo, EMPTY, [Execute(BootRequest("a", [1]))]), "a", NOW, NOW);
            local == Teleport.Known(Local(2), Teleport.Import(Snapshot([], [1]), Manifest("a", true))) &&
            var packets := Teleport.Packets(codec, Local(2), local.agent);
            var start := Moving(n, Teleport.Start(Teleport.Target([], [])));
            var hs := CallThenSends(Call("a", 0, None, 0, false, [2]), rehash, |packets| + 1);
            var m := Moved(Echo, codec, packets, "a", start, hs);
            && !m.sending.registered && m.sending.target.imported == [local.agent]
            && Dropped(Echo, codec, packets, "a", start, hs) == [TetMetadata(Local(3), true, Some(Local(4)))]
            && Local(3) in m.node.active && m.node.active[Local(3)].snapshot == Snapshot([], [2])
  {
    BootAskCall();
    var (n, local) := Prepared(Echo, Run(Echo, EMPTY, [Execute(BootRequest("a", [1]))]), "a", NOW, NOW);
    CallThenSmooth(Echo, codec, Local(2), local.agent, "a", n, Call("a", 0, None, 0, false, [2]), rehash);
  }

  // ---------------------------------------------------------------------
  // What the target does with it
  // ---------------------------------------------------------------------

  /** The run the target starts once it has stored an imported snapshot: no voucher, and the manifest's own name. */
  function RevivalRequest(n: Node, agent: Teleport.Import, unpaid: bool, input: Bytes): Request {
    Request(None, Some(agent.manifest.name), Some(Local(n.nextId)), Some(agent.manifest), 0, unpaid, input)
  }

  function Revived(engine: Engine, n: Node, agent: Teleport.Import, unpaid: bool, input: Bytes): Node {
    DoExecute(engine, Stored(n, agent.snapshot), RevivalRequest(n, agent, unpaid, input)).0
  }

  /**
   The alias the agent had gains an entry at the target exactly when the target
   takes unpaid runs, the run can be set up, and the manifest's name is that
   alias. Otherwise the source has given up an alias that the target does not have.
   */
  lemma RevivedIff(engine: Engine, n: Node, agent: Teleport.Import, unpaid: bool, input: Bytes, alias: Alias)
    requires Valid(n)
    ensures var m := Revived(engine, n, agent, unpaid, input);
            var runs := !unpaid && engine(agent.snapshot.wasm, Some(agent.snapshot.state), input).Some?;
            Entries(m.registry, alias) == Entries(n.registry, alias)
              + if runs && agent.manifest.name == alias then [NextEntry(Stored(n, agent.snapshot))] else []
  {
    var stored, req := Stored(n, agent.snapshot), RevivalRequest(n, agent, unpaid, input);
    var (m, outcome) := DoExecute(engine, stored, req);
    StoredKeeps(n, agent.snapshot);
    if outcome.Ran? {
      var entries := Entries(n.registry, agent.manifest.name);
      forall e <- entries ensures e.snapshotId != Some(Local(n.nextId)) {
        assert NamesItsState(n, e);
      }
      RetainAll(entries, Local(n.nextId));
      FinishedEntries(stored, req, m.active[Local(stored.nextId)].snapshot, agent.manifest.name);
    }
  }

  // ---------------------------------------------------------------------
  // Who may move
  // ---------------------------------------------------------------------

  /** Mesh calls to `alias` that ran to the end. */
  function Calls(engine: Engine, ops: seq<Op>, alias: Alias): nat
    decreases |ops|
  {
    if ops == [] then 0
    else
      Calls(engine, ops[..|ops| - 1], alias)
      + if RanCall(engine, Run(engine, EMPTY, ops[..|ops| - 1]), ops[|ops| - 1], alias) then 1 else 0
  }

  predicate RanCall(engine: Engine, n: Node, op: Op, alias: Alias) {
    op.Call? && op.alias == alias
    && DoCall(engine, n, alias, op.clock, op.peer, op.depth, op.unpaid, op.input).1.Ran?
  }

  predicate RanBoot(engine: Engine, n: Node, op: Op, alias: Alias) {
    Boots(op, alias) && DoExecute(engine, n, op.req).1.Ran?
  }

  /** The manifest `alias` was booted with. */
  function BootManifest(engine: Engine, ops: seq<Op>, alias: Alias): Option<Manifest>
    decreases |ops|
  {
    if ops == [] then None
    else if RanBoot(engine, Run(engine, EMPTY, ops[..|ops| - 1]), ops[|ops| - 1], alias) then
      Some(ManifestOf(ops[|ops| - 1].req))
    else BootManifest(engine, ops[..|ops| - 1], alias)
  }

  /** No entry, or one entry, whose memory carries `manifest`. */
  ghost predicate Carries(n: Node, alias: Alias, manifest: Option<Manifest>) {
    if manifest.None? then Entries(n.registry, alias) == []
    else
      && |Entries(n.registry, alias)| == 1 && Entries(n.registry, alias)[0].tetId in n.active
      && n.active[Entries(n.registry, alias)[0].tetId].manifest == manifest.value
  }

  /** A call runs without a manifest, so it leaves one that permits nothing. */
  function Licence(engine: Engine, ops: seq<Op>, alias: Alias): Option<Manifest> {
    if Calls(engine, ops, alias) > 0 then Some(Manifest(alias, false)) else BootManifest(engine, ops, alias)
  }

  lemma CarriesStep(engine: Engine, n: Node, op: Op, alias: Alias, was: Option<Manifest>)
    requires Valid(n) && Carries(n, alias, was)
    requires op.Execute? && op.req.alias == Some(alias) ==> op.req.parent.None? && was.None?
    requires op.Deregister? ==> op.gone != alias
    ensures Carries(Do(engine, n, op), alias,
                    if RanBoot(engine, n, op, alias) then Some(ManifestOf(op.req))
                    else if RanCall(engine, n, op, alias) then Some(Manifest(alias, false)) else was)
  {
    if Boots(op, alias) {
      BootAppends(engine, n, op.req, alias);
    } else if op.Call? && op.alias == alias {
      CallSwapsEntry(engine, n, alias, op.clock, op.peer, op.depth, op.unpaid, op.input);
    } else {
      OthersKeepEntries(engine, n, op, alias);
      DoKeeps(engine, n, op);
    }
  }

  lemma {:induction false} LicenceIsCarried(engine: Engine, ops: seq<Op>, alias: Alias)
    requires BootedOnce(engine, ops, alias)
    ensures Carries(Run(engine, EMPTY, ops), alias, Licence(engine, ops, alias))
    decreases |ops|
  {
    if ops != [] {
      var before, last := ops[..|ops| - 1], ops[|ops| - 1];
      assert ops == before + [last];
      BootedOnceFirst(engine, before, [last], alias);
      LicenceIsCarried(engine, before, alias);
      LinearHistory(engine, before, alias);
      RunKeeps(engine, EMPTY, before);
      assert last in ops;
      CarriesStep(engine, Run(engine, EMPTY, before), last, alias, Licence(engine, before, alias));
    }
  }

  /**
   An agent booted once and driven by calls may be teleported exactly when no
   call to it has run until the manifest is read: the first one replaces the
   manifest it was booted with. What a teleport takes is the state that its
   completed runs had led to when the snapshot was taken, earlier on.
   */
  lemma TeleportableIff(engine: Engine, ops: seq<Op>, alias: Alias, first: Lookup, second: Lookup)
    requires BootedOnce(engine, ops + Asking(alias, first, second), alias)
    ensures var local := Prepared(engine, Run(engine, EMPTY, ops), alias, first, second).1;
            var asked := ops + Asking(alias, first, second);
            var calls, booted := Calls(engine, asked, alias), BootManifest(engine, asked, alias);
            && (local.Known? <==> History(engine, ops, alias).Some?)
            && (local.Known? ==>
                  && Some(local.agent.snapshot) == History(engine, ops + first.before, alias)
                  && (local.agent.manifest.canTeleport <==> calls == 0 && booted.Some? && booted.value.canTeleport)
                  && (calls == 0 ==> booted == Some(local.agent.manifest)))
  {
    var asked := ops + Asking(alias, first, second);
    assert asked + [] == asked;
    KnownIsHistory(engine, ops, alias, first, second, []);
    LicenceIsCarried(engine, asked, alias);
  }
}
