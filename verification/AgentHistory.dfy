/**
 Running agents on one node: the snapshot store, the alias registry and the
 calls that move an alias from one stored state to the next
 (src/sandbox/sandbox_wasmtime.rs, src/mesh.rs, src/mesh_worker.rs).
 */
module AgentHistory {
  import opened Words
  import opened Wrappers

  type Alias = string
  /** Identifiers are globally unique: this node draws its own from a counter, and never draws another's. */
  datatype Id = Local(serial: nat) | Foreign(serial: nat)

  /** `state` is everything a run restores and captures: memory, files, vectors and inference sessions. */
  datatype Snapshot = Snapshot(wasm: Bytes, state: Bytes)

  datatype Manifest = Manifest(name: string, canTeleport: bool)

  /** What a finished run leaves in memory. */
  datatype Memory = Memory(snapshot: Snapshot, manifest: Manifest)

  datatype TetMetadata = TetMetadata(tetId: Id, hibernating: bool, snapshotId: Option<Id>)

  type Registry = map<Alias, seq<TetMetadata>>

  datatype Node = Node(snapshots: map<Id, Snapshot>, active: map<Id, Memory>, registry: Registry, nextId: nat)

  const EMPTY := Node(map[], map[], map[], 0)

  /** What a run leaves, or nothing if it cannot be set up; a trapped guest still leaves a state. */
  type Engine = (Bytes, Option<Bytes>, Bytes) -> Option<Bytes>

  datatype Request =
    Request(payload: Option<Bytes>, alias: Option<Alias>, parent: Option<Id>, manifest: Option<Manifest>,
            callDepth: nat, unpaid: bool, input: Bytes)

  datatype TetError = SnapshotNotFound | NoPayload | CallStackExhausted | EngineError | AliasNotFound

  datatype Outcome = Ran(tetId: Id) | EconomicViolation | Failed(error: TetError)

  const MAX_DEPTH := 5

  // ---------------------------------------------------------------------
  // The registry (src/mesh.rs)
  // ---------------------------------------------------------------------

  function Entries(registry: Registry, alias: Alias): seq<TetMetadata> {
    if alias in registry then registry[alias] else []
  }

  /** Replaces the first entry with the same id, or appends. */
  function Upsert(entries: seq<TetMetadata>, meta: TetMetadata): seq<TetMetadata> {
    if entries == [] then [meta]
    else if entries[0].tetId == meta.tetId then [meta] + entries[1..]
    else [entries[0]] + Upsert(entries[1..], meta)
  }

  function Retain(entries: seq<TetMetadata>, snapshotId: Id): seq<TetMetadata> {
    if entries == [] then []
    else (if entries[0].snapshotId == Some(snapshotId) then [] else [entries[0]]) + Retain(entries[1..], snapshotId)
  }

  function Registered(registry: Registry, alias: Alias, meta: TetMetadata): Registry {
    registry[alias := Upsert(Entries(registry, alias), meta)]
  }

  function WithoutSnapshot(registry: Registry, alias: Alias, snapshotId: Id): Registry {
    if alias !in registry then registry
    else if Retain(registry[alias], snapshotId) == [] then registry - {alias}
    else registry[alias := Retain(registry[alias], snapshotId)]
  }

  /** One of the entries, picked by the clock. */
  function ResolveLocal(registry: Registry, alias: Alias, clock: nat): Option<TetMetadata> {
    var entries := Entries(registry, alias);
    if entries == [] then None else Some(entries[clock % |entries|])
  }

  /** The local registry first, then whatever the first peer that knows the alias answers. */
  function Resolve(registry: Registry, alias: Alias, clock: nat, peer: Option<TetMetadata>): Option<TetMetadata> {
    var meta := ResolveLocal(registry, alias, clock);
    if meta.Some? then meta else peer
  }

  // ---------------------------------------------------------------------
  // Operations
  // ---------------------------------------------------------------------

  /** The run itself: what every refusal short of it looks like, too. */
  function Attempt(engine: Engine, req: Request, parent: Option<Snapshot>): Result<Snapshot, TetError> {
    if req.payload.None? && parent.None? then Err(NoPayload)
    else
      var wasm := if req.payload.Some? then req.payload.value else parent.value.wasm;
      if req.callDepth > MAX_DEPTH then Err(CallStackExhausted)
      else match engine(wasm, if parent.Some? then Some(parent.value.state) else None, req.input)
        case None => Err(EngineError)
        case Some(state) => Ok(Snapshot(wasm, state))
  }

  /** A request without a manifest gets one that permits nothing. */
  function ManifestOf(req: Request): Manifest {
    if req.manifest.Some? then req.manifest.value
    else Manifest(if req.alias.Some? then req.alias.value else "", false)
  }

  /** A finished run: registered, stored, and put in the place of its parent. */
  function Finished(n: Node, req: Request, result: Snapshot): Node {
    var tetId, snapshotId := Local(n.nextId), Local(n.nextId + 1);
    var registry := match req.alias
      case None => n.registry
      case Some(alias) =>
        var running := Registered(n.registry, alias, TetMetadata(tetId, false, None));
        var replaced := if req.parent.Some? then WithoutSnapshot(running, alias, req.parent.value) else running;
        Registered(replaced, alias, TetMetadata(tetId, true, Some(snapshotId)));
    Node(n.snapshots[snapshotId := result], n.active[tetId := Memory(result, ManifestOf(req))], registry, n.nextId + 2)
  }

  function DoExecute(engine: Engine, n: Node, req: Request): (Node, Outcome) {
    if req.unpaid then (n, EconomicViolation)
    else if req.parent.Some? && req.parent.value !in n.snapshots then (n, Failed(SnapshotNotFound))
    else match Attempt(engine, req, if req.parent.Some? then Some(n.snapshots[req.parent.value]) else None)
      case Err(e) => (n, Failed(e))
      case Ok(result) => (Finished(n, req, result), Ran(Local(n.nextId)))
  }

  function CallRequest(alias: Alias, parent: Option<Id>, depth: nat, unpaid: bool, input: Bytes): Request {
    Request(None, Some(alias), parent, None, depth + 1, unpaid, input)
  }

  function DoCall(engine: Engine, n: Node, alias: Alias, clock: nat, peer: Option<TetMetadata>, depth: nat,
                  unpaid: bool, input: Bytes): (Node, Outcome)
  {
    match Resolve(n.registry, alias, clock, peer)
    case None => (n, Failed(AliasNotFound))
    case Some(meta) => DoExecute(engine, n, CallRequest(alias, meta.snapshotId, depth, unpaid, input))
  }

  function Stored(n: Node, s: Snapshot): Node {
    n.(snapshots := n.snapshots[Local(n.nextId) := s], nextId := n.nextId + 1)
  }

  /** A memory may be asked for by id or by alias. */
  function FindActive(n: Node, id: Id, alias: Alias, clock: nat, peer: Option<TetMetadata>): Option<Memory> {
    if id in n.active then Some(n.active[id])
    else
      var meta := Resolve(n.registry, alias, clock, peer);
      if meta.Some? && meta.value.tetId in n.active then Some(n.active[meta.value.tetId]) else None
  }

  function DoSnapshot(n: Node, id: Id, alias: Alias, clock: nat, peer: Option<TetMetadata>): (Node, Option<Id>) {
    match FindActive(n, id, alias, clock, peer)
    case None => (n, None)
    case Some(memory) => (Stored(n, memory.snapshot), Some(Local(n.nextId)))
  }

  datatype Op =
    | Execute(req: Request)
    | Call(alias: Alias, clock: nat, peer: Option<TetMetadata>, depth: nat, unpaid: bool, input: Bytes)
    | TakeSnapshot(id: Id, byAlias: Alias, at: nat, answer: Option<TetMetadata>)
    | ImportSnapshot(snapshot: Snapshot)
    | Deregister(gone: Alias)

  function Do(engine: Engine, n: Node, op: Op): Node {
    match op
    case Execute(req) => DoExecute(engine, n, req).0
    case Call(alias, clock, peer, depth, unpaid, input) =>
      DoCall(engine, n, alias, clock, peer, depth, unpaid, input).0
    case TakeSnapshot(id, alias, clock, peer) => DoSnapshot(n, id, alias, clock, peer).0
    case ImportSnapshot(s) => Stored(n, s)
    case Deregister(alias) => n.(registry := n.registry - {alias})
  }

  function Run(engine: Engine, n: Node, ops: seq<Op>): Node
    decreases |ops|
  {
    if ops == [] then n else Do(engine, Run(engine, n, ops[..|ops| - 1]), ops[|ops| - 1])
  }

  // ---------------------------------------------------------------------
  // What every operation keeps
  // ---------------------------------------------------------------------

  predicate Drawn(n: Node, id: Id) {
    id.Local? && id.serial < n.nextId
  }

  /** An entry's state is stored, and is what its run left in memory. */
  predicate NamesItsState(n: Node, e: TetMetadata) {
    && e.tetId in n.active && e.snapshotId.Some? && e.snapshotId.value in n.snapshots
    && n.active[e.tetId].snapshot == n.snapshots[e.snapshotId.value]
  }

  /** Entries of one alias: each names its state, no two alike. */
  ghost predicate GoodEntries(n: Node, entries: seq<TetMetadata>) {
    && (forall e <- entries :: NamesItsState(n, e))
    && (forall i, j :: 0 <= i < j < |entries| ==>
          entries[i].tetId != entries[j].tetId && entries[i].snapshotId != entries[j].snapshotId)
  }

  ghost predicate Valid(n: Node) {
    && (forall s <- n.snapshots :: Drawn(n, s))
    && (forall t <- n.active :: Drawn(n, t))
    && (forall a <- n.registry :: n.registry[a] != [] && GoodEntries(n, n.registry[a]))
  }

  /** Snapshots and memories of `n` are in `m`, unchanged. */
  ghost predicate Keeps(n: Node, m: Node) {
    && n.nextId <= m.nextId
    && (forall s <- n.snapshots :: s in m.snapshots && m.snapshots[s] == n.snapshots[s])
    && (forall t <- n.active :: t in m.active && m.active[t] == n.active[t])
  }

  /** The entry of the run that draws the next two ids. */
  function NextEntry(n: Node): TetMetadata {
    TetMetadata(Local(n.nextId), true, Some(Local(n.nextId + 1)))
  }

  lemma {:induction false} UpsertNew(entries: seq<TetMetadata>, meta: TetMetadata)
    requires forall e <- entries :: e.tetId != meta.tetId
    ensures Upsert(entries, meta) == entries + [meta]
  {
    if entries != [] {
      UpsertNew(entries[1..], meta);
      assert entries == [entries[0]] + entries[1..];
    }
  }

  lemma {:induction false} UpsertLast(entries: seq<TetMetadata>, running: TetMetadata, meta: TetMetadata)
    requires running.tetId == meta.tetId && forall e <- entries :: e.tetId != meta.tetId
    ensures Upsert(entries + [running], meta) == entries + [meta]
  {
    var all := entries + [running];
    if entries == [] {
      assert all[1..] == [];
    } else {
      assert all[0] == entries[0] && all[1..] == entries[1..] + [running];
      UpsertLast(entries[1..], running, meta);
      assert entries == [entries[0]] + entries[1..];
    }
  }

  lemma {:induction false} RetainLast(entries: seq<TetMetadata>, last: TetMetadata, snapshotId: Id)
    requires last.snapshotId != Some(snapshotId)
    ensures Retain(entries + [last], snapshotId) == Retain(entries, snapshotId) + [last]
  {
    if entries == [] {
      assert (entries + [last])[1..] == [];
    } else {
      TailOfConcat(entries, [last]);
      RetainLast(entries[1..], last, snapshotId);
      ConcatAssociates(if entries[0].snapshotId == Some(snapshotId) then [] else [entries[0]],
                       Retain(entries[1..], snapshotId), [last]);
    }
  }

  lemma RetainNext(kept: seq<TetMetadata>, entries: seq<TetMetadata>, i: nat, snapshotId: Id)
    requires i < |entries|
    ensures kept + Retain(entries[i..], snapshotId)
         == kept + (if entries[i].snapshotId == Some(snapshotId) then [] else [entries[i]])
          + Retain(entries[i + 1..], snapshotId)
  {
    ConcatAssociates(kept, if entries[i].snapshotId == Some(snapshotId) then [] else [entries[i]],
                     Retain(entries[i + 1..], snapshotId));
    assert entries[i..][1..] == entries[i + 1..];
  }

  lemma {:induction false} RetainSubset(entries: seq<TetMetadata>, snapshotId: Id)
    ensures forall e <- Retain(entries, snapshotId) :: e in entries && e.snapshotId != Some(snapshotId)
    ensures forall e <- entries :: e.snapshotId != Some(snapshotId) ==> e in Retain(entries, snapshotId)
  {
    if entries != [] {
      RetainSubset(entries[1..], snapshotId);
    }
  }

  lemma {:induction false} RetainGood(n: Node, entries: seq<TetMetadata>, snapshotId: Id)
    requires GoodEntries(n, entries)
    ensures GoodEntries(n, Retain(entries, snapshotId))
  {
    if entries != [] {
      RetainGood(n, entries[1..], snapshotId);
      RetainSubset(entries[1..], snapshotId);
      var rest := Retain(entries[1..], snapshotId);
      forall i | 0 <= i < |rest|
        ensures rest[i].tetId != entries[0].tetId && rest[i].snapshotId != entries[0].snapshotId
      {
        assert rest[i] in entries[1..];
      }
    }
  }

  /** The entries left once the parent, if any, is taken out. */
  function Survivors(entries: seq<TetMetadata>, parent: Option<Id>): seq<TetMetadata> {
    if parent.Some? then Retain(entries, parent.value) else entries
  }

  /** A finished run stands, alone and last, in the place of its parent; other aliases are untouched. */
  lemma FinishedEntries(n: Node, req: Request, result: Snapshot, alias: Alias)
    requires Valid(n) && req.alias == Some(alias)
    ensures Finished(n, req, result).registry
         == n.registry[alias := Survivors(Entries(n.registry, alias), req.parent) + [NextEntry(n)]]
  {
    var entries := Entries(n.registry, alias);
    var running := TetMetadata(Local(n.nextId), false, None);
    UpsertNew(entries, running);
    var survivors := Survivors(entries, req.parent);
    if req.parent.Some? {
      RetainLast(entries, running, req.parent.value);
      RetainSubset(entries, req.parent.value);
    }
    UpsertLast(survivors, running, NextEntry(n));
  }

  lemma GoodGrows(n: Node, m: Node, entries: seq<TetMetadata>)
    requires GoodEntries(n, entries) && Keeps(n, m)
    ensures GoodEntries(m, entries)
  {
  }

  lemma FinishedValid(n: Node, req: Request, result: Snapshot)
    requires Valid(n)
    ensures Valid(Finished(n, req, result)) && Keeps(n, Finished(n, req, result))
  {
    var m := Finished(n, req, result);
    if req.alias.Some? {
      var alias := req.alias.value;
      var entries := Entries(n.registry, alias);
      FinishedEntries(n, req, result, alias);
      if req.parent.Some? {
        RetainGood(n, entries, req.parent.value);
      }
      LastIsGood(n, m, Survivors(entries, req.parent));
    }
    forall a <- n.registry ensures GoodEntries(m, n.registry[a]) {
      GoodGrows(n, m, n.registry[a]);
    }
  }

  lemma LastIsGood(n: Node, m: Node, entries: seq<TetMetadata>)
    requires GoodEntries(n, entries) && Keeps(n, m) && NamesItsState(m, NextEntry(n))
    requires (forall s <- n.snapshots :: Drawn(n, s)) && forall t <- n.active :: Drawn(n, t)
    ensures GoodEntries(m, entries + [NextEntry(n)])
  {
    GoodGrows(n, m, entries);
    forall e <- entries ensures e.tetId != NextEntry(n).tetId && e.snapshotId != NextEntry(n).snapshotId {
      assert NamesItsState(n, e);
    }
  }

  lemma DoKeeps(engine: Engine, n: Node, op: Op)
    requires Valid(n)
    ensures Valid(Do(engine, n, op)) && Keeps(n, Do(engine, n, op))
  {
    match op
    case Execute(req) => ExecuteKeeps(engine, n, req);
    case Call(alias, clock, peer, depth, unpaid, input) =>
      var meta := Resolve(n.registry, alias, clock, peer);
      if meta.Some? {
        ExecuteKeeps(engine, n, CallRequest(alias, meta.value.snapshotId, depth, unpaid, input));
      }
    case TakeSnapshot(id, alias, clock, peer) =>
      forall s: Snapshot ensures Valid(Stored(n, s)) && Keeps(n, Stored(n, s)) {
        StoredKeeps(n, s);
      }
    case ImportSnapshot(s) => StoredKeeps(n, s);
    case Deregister(alias) =>
  }

  lemma StoredKeeps(n: Node, s: Snapshot)
    requires Valid(n)
    ensures Valid(Stored(n, s)) && Keeps(n, Stored(n, s))
  {
    forall a <- n.registry ensures GoodEntries(Stored(n, s), n.registry[a]) {
      GoodGrows(n, Stored(n, s), n.registry[a]);
    }
  }

  lemma ExecuteKeeps(engine: Engine, n: Node, req: Request)
    requires Valid(n)
    ensures Valid(DoExecute(engine, n, req).0) && Keeps(n, DoExecute(engine, n, req).0)
  {
    if DoExecute(engine, n, req).1.Ran? {
      FinishedValid(n, req, DoExecute(engine, n, req).0.active[Local(n.nextId)].snapshot);
    }
  }

  /** Over every run: a stored snapshot never changes, and every registry entry names the state its run left. */
  lemma {:induction false} RunKeeps(engine: Engine, n: Node, ops: seq<Op>)
    requires Valid(n)
    ensures Valid(Run(engine, n, ops)) && Keeps(n, Run(engine, n, ops))
    decreases |ops|
  {
    if ops != [] {
      RunKeeps(engine, n, ops[..|ops| - 1]);
      DoKeeps(engine, Run(engine, n, ops[..|ops| - 1]), ops[|ops| - 1]);
    }
  }

  // ---------------------------------------------------------------------
  // What one operation comes to
  // ---------------------------------------------------------------------

  /** The module a request runs: its own, or else its parent's. */
  function ModuleOf(n: Node, req: Request): Option<Bytes> {
    if req.payload.Some? then req.payload
    else if req.parent.Some? && req.parent.value in n.snapshots then Some(n.snapshots[req.parent.value].wasm)
    else None
  }

  function StateBefore(n: Node, req: Request): Option<Bytes> {
    if req.parent.Some? && req.parent.value in n.snapshots then Some(n.snapshots[req.parent.value].state) else None
  }

  /**
   Which refusal a request meets, in order: unpaid, an unknown parent, nothing to
   run, a sixth level of calls, a run that cannot be set up. One that meets none
   leaves what its module makes of its parent's state and its input, in memory
   with its manifest and stored under a new id.
   */
  lemma ExecuteOutcome(engine: Engine, n: Node, req: Request)
    ensures var (m, outcome) := DoExecute(engine, n, req);
            var known := req.parent.Some? ==> req.parent.value in n.snapshots;
            var wasm := ModuleOf(n, req);
            && (outcome == EconomicViolation <==> req.unpaid)
            && (outcome == Failed(SnapshotNotFound) <==> !req.unpaid && !known)
            && (outcome == Failed(NoPayload) <==> !req.unpaid && known && wasm.None?)
            && (outcome == Failed(CallStackExhausted) <==>
                  !req.unpaid && known && wasm.Some? && req.callDepth >= 6)
            && (outcome == Failed(EngineError) <==>
                  && !req.unpaid && known && wasm.Some? && req.callDepth <= 5
                  && engine(wasm.value, StateBefore(n, req), req.input).None?)
            && (!outcome.Ran? ==> m == n)
            && (outcome.Ran? ==>
                  && outcome == Ran(Local(n.nextId)) && m.nextId == n.nextId + 2
                  && engine(wasm.value, StateBefore(n, req), req.input).Some?
                  && var left := Snapshot(wasm.value, engine(wasm.value, StateBefore(n, req), req.input).value);
                     && m.snapshots == n.snapshots[Local(n.nextId + 1) := left]
                     && m.active.Keys == n.active.Keys + {Local(n.nextId)}
                     && m.active[Local(n.nextId)].snapshot == left
                     && (req.manifest.Some? ==> m.active[Local(n.nextId)].manifest == req.manifest.value)
                     && (req.manifest.None? ==> !m.active[Local(n.nextId)].manifest.canTeleport))
  {
  }

  /**
   A snapshot stores what is in memory under the id that was asked for; only if
   nothing is, what is in memory under the entry that the alias resolves to.
   */
  lemma SnapshotIsOf(n: Node, id: Id, alias: Alias, clock: nat, peer: Option<TetMetadata>)
    requires forall s <- n.snapshots :: Drawn(n, s)
    ensures var (m, r) := DoSnapshot(n, id, alias, clock, peer);
            var entries := Entries(n.registry, alias);
            var meta := if entries != [] then Some(entries[clock % |entries|]) else peer;
            && (r.Some? <==> id in n.active || (meta.Some? && meta.value.tetId in n.active))
            && (r.None? ==> m == n)
            && (r.Some? ==>
                  && r.value !in n.snapshots && m.active == n.active && m.registry == n.registry
                  && m.snapshots == n.snapshots[r.value := if id in n.active then n.active[id].snapshot
                                                           else n.active[meta.value.tetId].snapshot])
  {
  }

  // ---------------------------------------------------------------------
  // How many entries an alias has
  // ---------------------------------------------------------------------

  /** A run asked for `alias` that starts from nothing. */
  predicate Boots(op: Op, alias: Alias) {
    op.Execute? && op.req.alias == Some(alias) && op.req.parent.None?
  }

  /** `ops` reach `alias` only by boots and mesh calls. */
  ghost predicate BootedAndCalled(ops: seq<Op>, alias: Alias) {
    forall op <- ops ::
      (op.Execute? && op.req.alias == Some(alias) ==> op.req.parent.None?) && (op.Deregister? ==> op.gone != alias)
  }

  /** The run completes and gives `alias` one entry more: a boot, or a call that a peer's answer let through. */
  predicate Starts(engine: Engine, n: Node, op: Op, alias: Alias) {
    || (Boots(op, alias) && DoExecute(engine, n, op.req).1.Ran?)
    || (op.Call? && op.alias == alias && Entries(n.registry, alias) == []
        && DoCall(engine, n, alias, op.clock, op.peer, op.depth, op.unpaid, op.input).1.Ran?)
  }

  function StartCount(engine: Engine, ops: seq<Op>, alias: Alias): nat
    decreases |ops|
  {
    if ops == [] then 0
    else
      StartCount(engine, ops[..|ops| - 1], alias)
      + if Starts(engine, Run(engine, EMPTY, ops[..|ops| - 1]), ops[|ops| - 1], alias) then 1 else 0
  }

  lemma {:induction false} RetainOne(entries: seq<TetMetadata>, i: nat)
    requires i < |entries| && entries[i].snapshotId.Some?
    requires forall j, k :: 0 <= j < k < |entries| ==> entries[j].snapshotId != entries[k].snapshotId
    ensures Retain(entries, entries[i].snapshotId.value) == entries[..i] + entries[i + 1..]
  {
    if i == 0 {
      RetainAll(entries[1..], entries[0].snapshotId.value);
    } else {
      RetainOne(entries[1..], i - 1);
    }
  }

  lemma {:induction false} RetainAll(entries: seq<TetMetadata>, snapshotId: Id)
    requires forall e <- entries :: e.snapshotId != Some(snapshotId)
    ensures Retain(entries, snapshotId) == entries
  {
    if entries != [] {
      RetainAll(entries[1..], snapshotId);
      assert entries == [entries[0]] + entries[1..];
    }
  }

  /** The snapshot that an answer names, if this node has it. */
  function Named(n: Node, answer: Option<TetMetadata>): Option<Snapshot> {
    if answer.Some? && answer.value.snapshotId.Some? && answer.value.snapshotId.value in n.snapshots then
      Some(n.snapshots[answer.value.snapshotId.value])
    else None
  }

  /**
   A call on an alias that is not registered here runs exactly when a peer's
   answer names a snapshot stored here and the run can be set up from it; the
   alias is then registered here. An export needs the answer to name a memory of
   this node.
   */
  lemma PeerCallRunsIff(engine: Engine, n: Node, alias: Alias, clock: nat, peer: Option<TetMetadata>, depth: nat,
                        unpaid: bool, input: Bytes)
    requires Valid(n) && Entries(n.registry, alias) == []
    ensures var (m, outcome) := DoCall(engine, n, alias, clock, peer, depth, unpaid, input);
            var s := Named(n, peer);
            && (outcome.Ran? <==> !unpaid && s.Some? && depth < 5
                                  && engine(s.value.wasm, Some(s.value.state), input).Some?)
            && (outcome == Failed(AliasNotFound) <==> peer.None?)
            && (outcome.Ran? ==> m.registry == n.registry[alias := [NextEntry(n)]])
            && (!outcome.Ran? ==> m == n)
    ensures forall id :: id !in n.active ==>
              (DoSnapshot(n, id, alias, clock, peer).1.Some? <==> peer.Some? && peer.value.tetId in n.active)
  {
    var (m, outcome) := DoCall(engine, n, alias, clock, peer, depth, unpaid, input);
    if outcome.Ran? {
      FinishedEntries(n, CallRequest(alias, peer.value.snapshotId, depth, unpaid, input),
                      m.active[Local(n.nextId)].snapshot, alias);
      assert [] + [NextEntry(n)] == [NextEntry(n)];
    }
  }

  /** The entries but the one that the clock picks. */
  function Unpicked(entries: seq<TetMetadata>, clock: nat): seq<TetMetadata> {
    if entries == [] then [] else entries[..clock % |entries|] + entries[clock % |entries| + 1..]
  }

  /** A call that runs swaps the entry it resolved, if any, for one of its own; one that fails changes nothing. */
  lemma CallSwapsEntry(engine: Engine, n: Node, alias: Alias, clock: nat, peer: Option<TetMetadata>, depth: nat,
                       unpaid: bool, input: Bytes)
    requires Valid(n)
    ensures var (m, outcome) := DoCall(engine, n, alias, clock, peer, depth, unpaid, input);
            var entries := Entries(n.registry, alias);
            if outcome.Ran? then m.registry == n.registry[alias := Unpicked(entries, clock) + [NextEntry(n)]]
            else m == n
  {
    var entries := Entries(n.registry, alias);
    var (m, outcome) := DoCall(engine, n, alias, clock, peer, depth, unpaid, input);
    if entries == [] {
      PeerCallRunsIff(engine, n, alias, clock, peer, depth, unpaid, input);
      assert [] + [NextEntry(n)] == [NextEntry(n)];
    } else if outcome.Ran? {
      var i := clock % |entries|;
      RetainOne(entries, i);
      var req := CallRequest(alias, entries[i].snapshotId, depth, unpaid, input);
      FinishedEntries(n, req, m.active[Local(n.nextId)].snapshot, alias);
    }
  }

  lemma OthersKeepEntries(engine: Engine, n: Node, op: Op, alias: Alias)
    requires Valid(n)
    requires op.Execute? ==> op.req.alias != Some(alias)
    requires op.Call? ==> op.alias != alias
    requires op.Deregister? ==> op.gone != alias
    ensures Entries(Do(engine, n, op).registry, alias) == Entries(n.registry, alias)
  {
    match op
    case Execute(req) =>
    case Call(other, clock, peer, depth, unpaid, input) =>
      CallSwapsEntry(engine, n, other, clock, peer, depth, unpaid, input);
    case TakeSnapshot(_, _, _, _) =>
    case ImportSnapshot(_) =>
    case Deregister(_) =>
  }

  /** Calls on a registered alias neither add nor remove entries: it has as many as completed runs started it. */
  lemma {:induction false} EntriesAreStarts(engine: Engine, ops: seq<Op>, alias: Alias)
    requires BootedAndCalled(ops, alias)
    ensures |Entries(Run(engine, EMPTY, ops).registry, alias)| == StartCount(engine, ops, alias)
    decreases |ops|
  {
    if ops != [] {
      var before, last := ops[..|ops| - 1], ops[|ops| - 1];
      var n := Run(engine, EMPTY, before);
      EntriesAreStarts(engine, before, alias);
      RunKeeps(engine, EMPTY, before);
      if Boots(last, alias) {
        BootAppends(engine, n, last.req, alias);
      } else if last.Call? && last.alias == alias {
        CallSwapsEntry(engine, n, alias, last.clock, last.peer, last.depth, last.unpaid, last.input);
      } else {
        assert last in ops;
        OthersKeepEntries(engine, n, last, alias);
      }
    }
  }

  lemma BootAppends(engine: Engine, n: Node, req: Request, alias: Alias)
    requires Valid(n) && req.alias == Some(alias) && req.parent.None?
    ensures var (m, outcome) := DoExecute(engine, n, req);
            if outcome.Ran? then
              m.registry == n.registry[alias := Entries(n.registry, alias) + [NextEntry(n)]]
            else m == n
  {
    var (m, outcome) := DoExecute(engine, n, req);
    if outcome.Ran? {
      FinishedEntries(n, req, m.active[Local(n.nextId)].snapshot, alias);
    }
  }

  /** What the host's `fork` asks for: as the module to run it sends the guest's linear memory. */
  function ForkRequest(memory: Bytes, manifest: Manifest, unpaid: bool): Request {
    Request(Some(memory), Some(manifest.name), None, Some(manifest), 0, unpaid, [])
  }

  /** A forked child starts exactly when its parent's memory is itself a module that can be set up. */
  lemma ForkStartsIff(engine: Engine, n: Node, memory: Bytes, manifest: Manifest, unpaid: bool)
    requires Valid(n)
    ensures var (m, outcome) := DoExecute(engine, n, ForkRequest(memory, manifest, unpaid));
            && (outcome.Ran? <==> !unpaid && engine(memory, None, []).Some?)
            && Entries(m.registry, manifest.name)
               == Entries(n.registry, manifest.name) + if outcome.Ran? then [NextEntry(n)] else []
  {
    BootAppends(engine, n, ForkRequest(memory, manifest, unpaid), manifest.name);
  }

  // ---------------------------------------------------------------------
  // Linear history
  // ---------------------------------------------------------------------

  /** The state of `alias` as its boot and calls alone determine it. */
  function History(engine: Engine, ops: seq<Op>, alias: Alias): Option<Snapshot>
    decreases |ops|
  {
    if ops == [] then None
    else
      var n := Run(engine, EMPTY, ops[..|ops| - 1]);
      Evolved(engine, n, History(engine, ops[..|ops| - 1], alias), ops[|ops| - 1], alias)
  }

  /** A call runs from the state there is or, before there is one, from the snapshot that a peer's answer names. */
  function Evolved(engine: Engine, n: Node, was: Option<Snapshot>, op: Op, alias: Alias): Option<Snapshot> {
    if Boots(op, alias) && !op.req.unpaid then Later(was, Attempt(engine, op.req, None))
    else if op.Call? && op.alias == alias && !op.unpaid then
      var parent := if was.Some? then was else Named(n, op.peer);
      if parent.None? then was
      else Later(was, Attempt(engine, CallRequest(alias, Some(Local(0)), op.depth, false, op.input), parent))
    else was
  }

  function Later(was: Option<Snapshot>, run: Result<Snapshot, TetError>): Option<Snapshot> {
    if run.Ok? then Some(run.value) else was
  }

  /** `alias` is reached only by mesh calls and, until a run of it completes, by boots. */
  ghost predicate BootedOnce(engine: Engine, ops: seq<Op>, alias: Alias) {
    && BootedAndCalled(ops, alias)
    && forall i :: 0 <= i < |ops| && Boots(ops[i], alias) ==> History(engine, ops[..i], alias).None?
  }

  /** The alias has no entry before its boot, and afterwards one, whose stored state is the one given. */
  ghost predicate Shows(n: Node, alias: Alias, state: Option<Snapshot>) {
    match state
    case None => alias !in n.registry
    case Some(s) =>
      && alias in n.registry && |n.registry[alias]| == 1
      && n.registry[alias][0].snapshotId.Some?
      && n.registry[alias][0].snapshotId.value in n.snapshots
      && n.snapshots[n.registry[alias][0].snapshotId.value] == s
  }

  lemma ShowsStep(engine: Engine, n: Node, op: Op, alias: Alias, was: Option<Snapshot>)
    requires Valid(n) && Shows(n, alias, was)
    requires op.Execute? && op.req.alias == Some(alias) ==> op.req.parent.None? && was.None?
    requires op.Deregister? ==> op.gone != alias
    ensures Shows(Do(engine, n, op), alias, Evolved(engine, n, was, op, alias))
  {
    if Boots(op, alias) {
      BootAppends(engine, n, op.req, alias);
    } else if op.Call? && op.alias == alias {
      CallSwapsEntry(engine, n, alias, op.clock, op.peer, op.depth, op.unpaid, op.input);
    } else {
      OthersKeepEntries(engine, n, op, alias);
      DoKeeps(engine, n, op);
    }
  }

  /**
   An alias started once and driven by calls one after the other always has
   exactly one entry, naming the state its completed runs lead to, one after
   the other; refused and failed runs leave it as it was, and so does whatever
   happens to other aliases in between.
   */
  lemma {:induction false} LinearHistory(engine: Engine, ops: seq<Op>, alias: Alias)
    requires BootedOnce(engine, ops, alias)
    ensures Shows(Run(engine, EMPTY, ops), alias, History(engine, ops, alias))
    decreases |ops|
  {
    if ops != [] {
      var before, last := ops[..|ops| - 1], ops[|ops| - 1];
      forall i | 0 <= i < |before| && Boots(before[i], alias) ensures History(engine, before[..i], alias).None? {
        assert before[..i] == ops[..i] && before[i] == ops[i];
      }
      LinearHistory(engine, before, alias);
      RunKeeps(engine, EMPTY, before);
      assert last in ops;
      ShowsStep(engine, Run(engine, EMPTY, before), last, alias, History(engine, before, alias));
    }
  }

  // ---------------------------------------------------------------------
  // The code
  // ---------------------------------------------------------------------

  class TetMesh {
    var registry: Registry

    constructor ()
      ensures registry == map[]
    {
      registry := map[];
    }

    method Register(alias: Alias, metadata: TetMetadata)
      modifies this
      ensures registry == Registered(old(registry), alias, metadata)
    {
      var entries := Entries(registry, alias);
      var i := 0;
      while i < |entries| && entries[i].tetId != metadata.tetId
        invariant i <= |entries|
        invariant Upsert(entries, metadata) == entries[..i] + Upsert(entries[i..], metadata)
      {
        i := i + 1;
      }
      if i < |entries| {
        assert entries[..i] + ([metadata] + entries[i..][1..]) == entries[i := metadata];
      } else {
        assert entries[..i] + [metadata] == entries + [metadata];
      }
      entries := if i < |entries| then entries[i := metadata] else entries + [metadata];
      registry := registry[alias := entries];
    }

    method Deregister(alias: Alias)
      modifies this
      ensures registry == old(registry) - {alias}
      ensures forall clock :: ResolveLocal(registry, alias, clock) == None
      ensures forall other, clock | other != alias ::
                ResolveLocal(registry, other, clock) == ResolveLocal(old(registry), other, clock)
    {
      registry := registry - {alias};
    }

    method RemoveBySnapshot(alias: Alias, snapshotId: Id)
      modifies this
      ensures registry == WithoutSnapshot(old(registry), alias, snapshotId)
    {
      if alias in registry {
        var kept := Others(registry[alias], snapshotId);
        registry := if kept == [] then registry - {alias} else registry[alias := kept];
      }
    }
  }

  /** The loop of `Vec::retain`. */
  method Others(entries: seq<TetMetadata>, snapshotId: Id) returns (kept: seq<TetMetadata>)
    ensures kept == Retain(entries, snapshotId)
  {
    kept := [];
    for i := 0 to |entries|
      invariant kept + Retain(entries[i..], snapshotId) == Retain(entries, snapshotId)
    {
      RetainNext(kept, entries, i, snapshotId);
      if entries[i].snapshotId != Some(snapshotId) {
        kept := kept + [entries[i]];
      }
    }
  }

  class WasmtimeSandbox {
    const mesh: TetMesh
    var snapshots: map<Id, Snapshot>
    var active: map<Id, Memory>
    var nextId: nat

    function Value(): Node
      reads this, mesh
    {
      Node(snapshots, active, mesh.registry, nextId)
    }

    constructor ()
      ensures fresh(mesh) && Value() == EMPTY
    {
      mesh := new TetMesh();
      snapshots, active, nextId := map[], map[], 0;
    }

    method ExecuteInner(engine: Engine, req: Request, parent: Option<Snapshot>) returns (r: Result<Snapshot, TetError>)
      modifies mesh
      ensures r == Attempt(engine, req, parent)
      ensures mesh.registry == if r.Ok? && req.alias.Some?
                then Registered(old(mesh.registry), req.alias.value, TetMetadata(Local(nextId), false, None))
                else old(mesh.registry)
    {
      r := Attempt(engine, req, parent);
      if r.Ok? && req.alias.Some? {
        mesh.Register(req.alias.value, TetMetadata(Local(nextId), false, None));
      }
    }

    method Execute(engine: Engine, req: Request) returns (outcome: Outcome)
      modifies this, mesh
      ensures (Value(), outcome) == DoExecute(engine, old(Value()), req)
    {
      if req.unpaid {
        return EconomicViolation;
      }
      if req.parent.Some? && req.parent.value !in snapshots {
        return Failed(SnapshotNotFound);
      }
      var parent := if req.parent.Some? then Some(snapshots[req.parent.value]) else None;
      var r := ExecuteInner(engine, req, parent);
      if r.Err? {
        return Failed(r.error);
      }
      var tetId, snapshotId := Local(nextId), Local(nextId + 1);
      nextId := nextId + 2;
      active := active[tetId := Memory(r.value, ManifestOf(req))];
      snapshots := snapshots[snapshotId := r.value];
      if req.parent.Some? && req.alias.Some? {
        mesh.RemoveBySnapshot(req.alias.value, req.parent.value);
      }
      if req.alias.Some? {
        mesh.Register(req.alias.value, TetMetadata(tetId, true, Some(snapshotId)));
      }
      outcome := Ran(tetId);
    }

    /** The mesh worker's handling of one call. */
    method HandleCall(engine: Engine, alias: Alias, clock: nat, peer: Option<TetMetadata>, depth: nat, unpaid: bool,
                      input: Bytes) returns (outcome: Outcome)
      modifies this, mesh
      ensures (Value(), outcome) == DoCall(engine, old(Value()), alias, clock, peer, depth, unpaid, input)
    {
      match Resolve(mesh.registry, alias, clock, peer)
      case None => outcome := Failed(AliasNotFound);
      case Some(meta) => outcome := Execute(engine, CallRequest(alias, meta.snapshotId, depth, unpaid, input));
    }

    method ImportSnapshot(payload: Snapshot) returns (id: Id)
      modifies this
      ensures Value() == Stored(old(Value()), payload) && id == Local(old(nextId))
    {
      id := Local(nextId);
      nextId := nextId + 1;
      snapshots := snapshots[id := payload];
    }

    method TakeSnapshot(id: Id, alias: Alias, clock: nat, peer: Option<TetMetadata>) returns (r: Option<Id>)
      modifies this
      ensures (Value(), r) == DoSnapshot(old(Value()), id, alias, clock, peer)
    {
      var found := if id in active then Some(active[id]) else None;
      if found.None? {
        match Resolve(mesh.registry, alias, clock, peer)
        case Some(meta) => found := if meta.tetId in active then Some(active[meta.tetId]) else None;
        case None =>
      }
      if found.None? {
        return None;
      }
      var stored := ImportSnapshot(found.value.snapshot);
      r := Some(stored);
    }
  }
}
