/**
 Moving an agent to another node (src/teleport.rs on the source,
 src/hive/connection.rs on the target). Every send may be lost on its way, or
 lose its acknowledgement on the way back.
 */
module Teleport {
  import opened Words
  import opened Wrappers

  import AgentHistory

  type SnapshotId = AgentHistory.Id

  type Manifest = AgentHistory.Manifest

  type Snapshot = AgentHistory.Snapshot

  datatype Packet =
    | Handshake(manifest: Manifest, snapshotId: SnapshotId)
    | Payload(chunk: Bytes, sequence: u32)
    | Commit

  datatype Chunk = Chunk(sequence: u32, bytes: Bytes)

  // ---------------------------------------------------------------------
  // Chunks
  // ---------------------------------------------------------------------

  const CHUNK_SIZE := 65_536

  function Head(bytes: Bytes): nat {
    if |bytes| < CHUNK_SIZE then |bytes| else CHUNK_SIZE
  }

  /** The sequence number is a chunk's index cast to 32 bits. */
  function Sequence(index: nat): u32 {
    if index < U32 then index else index % U32
  }

  /** The chunks of `bytes`, numbered from `index`. */
  function Split(bytes: Bytes, index: nat): seq<Chunk>
    decreases |bytes|
  {
    if bytes == [] then []
    else [Chunk(Sequence(index), bytes[..Head(bytes)])] + Split(bytes[Head(bytes)..], index + 1)
  }

  function Concat(chunks: seq<Chunk>): Bytes {
    if chunks == [] then [] else chunks[0].bytes + Concat(chunks[1..])
  }

  function Insert(c: Chunk, sorted: seq<Chunk>): seq<Chunk> {
    if sorted == [] || c.sequence <= sorted[0].sequence then [c] + sorted else [sorted[0]] + Insert(c, sorted[1..])
  }

  /** The library's stable sort by sequence number. */
  function SortBySequence(chunks: seq<Chunk>): seq<Chunk> {
    if chunks == [] then [] else Insert(chunks[0], SortBySequence(chunks[1..]))
  }

  function Assemble(chunks: seq<Chunk>): Bytes {
    Concat(SortBySequence(chunks))
  }

  ghost predicate Ascending(chunks: seq<Chunk>) {
    forall i, j :: 0 <= i < j < |chunks| ==> chunks[i].sequence <= chunks[j].sequence
  }

  ghost predicate StrictlyAscending(chunks: seq<Chunk>) {
    forall i, j :: 0 <= i < j < |chunks| ==> chunks[i].sequence < chunks[j].sequence
  }

  lemma {:induction false} SplitConcat(bytes: Bytes, index: nat)
    ensures Concat(Split(bytes, index)) == bytes
    decreases |bytes|
  {
    if bytes != [] {
      SplitConcat(bytes[Head(bytes)..], index + 1);
      assert bytes == bytes[..Head(bytes)] + bytes[Head(bytes)..];
    }
  }

  /** Every chunk but the last has 65536 bytes, none is empty, and each has its index, modulo 2^32, as its number. */
  lemma {:induction false} ChunkSizes(bytes: Bytes, index: nat, i: nat)
    requires i < |Split(bytes, index)|
    ensures var chunks := Split(bytes, index);
            && 0 < |chunks[i].bytes| <= 65_536 && (i < |chunks| - 1 ==> |chunks[i].bytes| == 65_536)
            && chunks[i].sequence == (index + i) % 0x1_0000_0000
    decreases i
  {
    if i > 0 {
      ChunkSizes(bytes[Head(bytes)..], index + 1, i - 1);
    }
  }

  lemma {:induction false} SplitAscends(bytes: Bytes, index: nat)
    requires index + |Split(bytes, index)| <= U32
    ensures StrictlyAscending(Split(bytes, index))
    ensures forall i :: 0 <= i < |Split(bytes, index)| ==> Split(bytes, index)[i].sequence == index + i
    decreases |bytes|
  {
    if bytes != [] {
      SplitAscends(bytes[Head(bytes)..], index + 1);
    }
  }

  lemma {:induction false} InsertAdds(c: Chunk, sorted: seq<Chunk>)
    ensures multiset(Insert(c, sorted)) == multiset{c} + multiset(sorted)
  {
    if sorted != [] {
      InsertAdds(c, sorted[1..]);
      assert sorted == [sorted[0]] + sorted[1..];
    }
  }

  lemma InsertedFrom(c: Chunk, sorted: seq<Chunk>, i: nat)
    requires i < |Insert(c, sorted)|
    ensures Insert(c, sorted)[i] == c || Insert(c, sorted)[i] in sorted
  {
    InsertAdds(c, sorted);
    assert Insert(c, sorted)[i] in multiset(Insert(c, sorted));
  }

  lemma {:induction false} InsertKeepsOrder(c: Chunk, sorted: seq<Chunk>)
    requires Ascending(sorted)
    ensures Ascending(Insert(c, sorted))
  {
    if sorted != [] && c.sequence > sorted[0].sequence {
      InsertKeepsOrder(c, sorted[1..]);
      var rest := Insert(c, sorted[1..]);
      forall i | 0 <= i < |rest| ensures sorted[0].sequence <= rest[i].sequence {
        InsertedFrom(c, sorted[1..], i);
      }
    }
  }

  lemma {:induction false} SortSorts(chunks: seq<Chunk>)
    ensures Ascending(SortBySequence(chunks)) && multiset(SortBySequence(chunks)) == multiset(chunks)
  {
    if chunks != [] {
      SortSorts(chunks[1..]);
      InsertKeepsOrder(chunks[0], SortBySequence(chunks[1..]));
      InsertAdds(chunks[0], SortBySequence(chunks[1..]));
      assert chunks == [chunks[0]] + chunks[1..];
    }
  }

  lemma {:induction false} OneSortedOrder(a: seq<Chunk>, b: seq<Chunk>)
    requires multiset(a) == multiset(b) && Ascending(a) && StrictlyAscending(b)
    ensures a == b
  {
    assert |a| == |multiset(a)| == |multiset(b)| == |b|;
    if a != [] {
      SameFirst(a, b);
      assert a == [a[0]] + a[1..] && b == [b[0]] + b[1..];
      assert multiset(a[1..]) == multiset(a) - multiset{a[0]};
      OneSortedOrder(a[1..], b[1..]);
    }
  }

  lemma SameFirst(a: seq<Chunk>, b: seq<Chunk>)
    requires a != [] && b != [] && multiset(a) == multiset(b) && Ascending(a) && StrictlyAscending(b)
    ensures a[0] == b[0]
  {
    assert a[0] in multiset(b) && b[0] in multiset(a);
    var i :| 0 <= i < |b| && b[i] == a[0];
    var j :| 0 <= j < |a| && a[j] == b[0];
  }

  /** Whatever order the chunks arrive in, sorting and joining them gives the payload back. */
  lemma Reassembles(bytes: Bytes, arrived: seq<Chunk>)
    requires multiset(arrived) == multiset(Split(bytes, 0)) && |Split(bytes, 0)| <= U32
    ensures Assemble(arrived) == bytes
  {
    SortSorts(arrived);
    SplitAscends(bytes, 0);
    OneSortedOrder(SortBySequence(arrived), Split(bytes, 0));
    SplitConcat(bytes, 0);
  }

  // ---------------------------------------------------------------------
  // The target
  // ---------------------------------------------------------------------

  datatype Pending = Pending(snapshotId: SnapshotId, manifest: Manifest, chunks: seq<Chunk>)

  datatype Import = Import(snapshot: Snapshot, manifest: Manifest)

  /** The pending migrations are listed in the hash map's iteration order. */
  datatype Target = Target(pending: seq<Pending>, imported: seq<Import>)

  function Without(pending: seq<Pending>, id: SnapshotId): seq<Pending> {
    if pending == [] then []
    else (if pending[0].snapshotId == id then [] else [pending[0]]) + Without(pending[1..], id)
  }

  /** The order a hash map happens to list its entries in after an insertion. */
  type Rehash = seq<Pending> -> seq<Pending>

  /** An insertion may grow the table and list all the entries anew. */
  function Insertion(pending: seq<Pending>, entry: Pending, rehash: Rehash): (r: seq<Pending>)
    ensures multiset(r) == multiset(Without(pending, entry.snapshotId)) + multiset{entry}
  {
    var all := Without(pending, entry.snapshotId) + [entry];
    if multiset(rehash(all)) == multiset(all) then rehash(all) else all
  }

  function PushToLast(pending: seq<Pending>, chunk: Chunk): (r: seq<Pending>)
    ensures |r| == |pending|
  {
    if pending == [] then [] else
    pending[..|pending| - 1] + [pending[|pending| - 1].(chunks := pending[|pending| - 1].chunks + [chunk])]
  }

  /** The target and whether it acknowledges. Chunks go to the last entry, a commit takes the first. */
  function Handle(codec: Codec<Snapshot>, t: Target, packet: Packet, rehash: Rehash, importFails: bool)
    : (Target, bool)
  {
    match packet
    case Handshake(manifest, id) => (t.(pending := Insertion(t.pending, Pending(id, manifest, []), rehash)), true)
    case Payload(chunk, sequence) => (t.(pending := PushToLast(t.pending, Chunk(sequence, chunk))), true)
    case Commit =>
      if t.pending == [] then (t, true)
      else
        var first, rest := t.pending[0], t.(pending := t.pending[1..]);
        match codec.decode(Assemble(first.chunks))
        case None => (rest, false)
        case Some(snapshot) =>
          if importFails then (rest, false)
          else (rest.(imported := t.imported + [Import(snapshot, first.manifest)]), true)
  }

  // ---------------------------------------------------------------------
  // The source
  // ---------------------------------------------------------------------

  function PayloadPackets(chunks: seq<Chunk>): seq<Packet> {
    if chunks == [] then [] else [Payload(chunks[0].bytes, chunks[0].sequence)] + PayloadPackets(chunks[1..])
  }

  function Packets(codec: Codec<Snapshot>, id: SnapshotId, agent: Import): seq<Packet> {
    [Handshake(agent.manifest, id)] + PayloadPackets(Split(codec.encode(agent.snapshot), 0)) + [Commit]
  }

  /** What becomes of one send. */
  datatype Fate = Fate(delivered: bool, acknowledged: bool, rehash: Rehash, importFails: bool)

  function Send(codec: Codec<Snapshot>, t: Target, packet: Packet, fate: Fate): (Target, bool) {
    if !fate.delivered then (t, false)
    else
      var (t', ok) := Handle(codec, t, packet, fate.rehash, fate.importFails);
      (t', ok && fate.acknowledged)
  }

  /** `sent` packets were acknowledged; the alias stays registered until the very last step. */
  datatype State = State(sent: nat, failed: bool, registered: bool, target: Target)

  function Next(codec: Codec<Snapshot>, packets: seq<Packet>, s: State, fate: Fate): State {
    if s.failed || !s.registered then s
    else if s.sent < |packets| then
      var (t, ok) := Send(codec, s.target, packets[s.sent], fate);
      State(if ok then s.sent + 1 else s.sent, !ok, true, t)
    else s.(registered := false)
  }

  function Run(codec: Codec<Snapshot>, packets: seq<Packet>, s: State, fates: seq<Fate>): State
    decreases |fates|
  {
    if fates == [] then s
    else Next(codec, packets, Run(codec, packets, s, fates[..|fates| - 1]), fates[|fates| - 1])
  }

  function Start(t: Target): State {
    State(0, false, true, t)
  }

  // ---------------------------------------------------------------------
  // Safety of the hand-off
  // ---------------------------------------------------------------------

  /** The target after `k` acknowledged packets. */
  function Progress(codec: Codec<Snapshot>, id: SnapshotId, agent: Import, t: Target, k: nat): Target {
    var chunks := Split(codec.encode(agent.snapshot), 0);
    if k == 0 then t
    else if k <= |chunks| + 1 then t.(pending := [Pending(id, agent.manifest, chunks[..k - 1])])
    else t.(imported := t.imported + [agent])
  }

  ghost predicate SafeState(codec: Codec<Snapshot>, id: SnapshotId, agent: Import, t: Target, s: State) {
    && (s.failed ==> s.registered)
    && s.sent <= |Packets(codec, id, agent)|
    && (!s.failed ==> s.target == Progress(codec, id, agent, t, s.sent))
    && (!s.registered ==> s.sent == |Packets(codec, id, agent)|)
    && (s.target.imported == t.imported || s.target.imported == t.imported + [agent])
  }

  lemma {:induction false} PayloadPacketAt(chunks: seq<Chunk>, i: nat)
    requires i < |chunks|
    ensures |PayloadPackets(chunks)| == |chunks|
    ensures PayloadPackets(chunks)[i] == Payload(chunks[i].bytes, chunks[i].sequence)
  {
    if i > 0 {
      PayloadPacketAt(chunks[1..], i - 1);
    } else if |chunks| > 1 {
      PayloadPacketAt(chunks[1..], 0);
    }
  }

  lemma PacketAt(codec: Codec<Snapshot>, id: SnapshotId, agent: Import, k: nat)
    requires k < |Packets(codec, id, agent)|
    ensures var chunks := Split(codec.encode(agent.snapshot), 0);
            && |Packets(codec, id, agent)| == |chunks| + 2
            && Packets(codec, id, agent)[k] ==
               if k == 0 then Handshake(agent.manifest, id)
               else if k <= |chunks| then Payload(chunks[k - 1].bytes, chunks[k - 1].sequence)
               else Commit
  {
    var chunks := Split(codec.encode(agent.snapshot), 0);
    if chunks != [] {
      PayloadPacketAt(chunks, if 0 < k <= |chunks| then k - 1 else 0);
    }
  }

  /** The payload has few enough chunks to number, and nothing else is pending at the target. */
  ghost predicate Ready(codec: Codec<Snapshot>, agent: Import, t: Target) {
    codec.Correct() && t.pending == [] && |Split(codec.encode(agent.snapshot), 0)| <= U32
  }

  lemma InsertionAlone(pending: seq<Pending>, entry: Pending, rehash: Rehash)
    requires Without(pending, entry.snapshotId) == []
    ensures Insertion(pending, entry, rehash) == [entry]
  {
    var all := Insertion(pending, entry, rehash);
    assert |all| == |multiset(all)| == 1;
    assert all[0] in multiset(all);
  }

  lemma HandleChunk(codec: Codec<Snapshot>, entry: Pending, t: Target, c: Chunk, fate: Fate)
    ensures Handle(codec, t.(pending := [entry]), Payload(c.bytes, c.sequence), fate.rehash, fate.importFails)
         == (t.(pending := [entry.(chunks := entry.chunks + [c])]), true)
  {
    var longer := entry.(chunks := entry.chunks + [c]);
    assert [entry][..0] + [longer] == [longer];
  }

  lemma HandleCommit(codec: Codec<Snapshot>, id: SnapshotId, agent: Import, t: Target, fate: Fate)
    requires Ready(codec, agent, t)
    ensures var all := [Pending(id, agent.manifest, Split(codec.encode(agent.snapshot), 0))];
            Handle(codec, t.(pending := all), Commit, fate.rehash, fate.importFails)
            == (if fate.importFails then t else t.(imported := t.imported + [agent]), !fate.importFails)
  {
    var whole := Pending(id, agent.manifest, Split(codec.encode(agent.snapshot), 0));
    assert [whole][1..] == t.pending;
    Reassembles(codec.encode(agent.snapshot), whole.chunks);
  }

  lemma {:induction false} WithoutHas(pending: seq<Pending>, id: SnapshotId, e: Pending)
    ensures e in Without(pending, id) <==> e in pending && e.snapshotId != id
  {
    if pending != [] {
      WithoutHas(pending[1..], id, e);
      assert e in pending <==> e == pending[0] || e in pending[1..];
    }
  }

  /** A handshake replaces whatever was pending under its id by an entry without chunks, and nothing else. */
  lemma HandshakeReplaces(codec: Codec<Snapshot>, t: Target, manifest: Manifest, id: SnapshotId, rehash: Rehash,
                          e: Pending)
    ensures var (t', ok) := Handle(codec, t, Handshake(manifest, id), rehash, false);
            && ok && t'.imported == t.imported
            && (e in t'.pending <==> e == Pending(id, manifest, []) || (e in t.pending && e.snapshotId != id))
  {
    var all := Insertion(t.pending, Pending(id, manifest, []), rehash);
    WithoutHas(t.pending, id, e);
    assert e in all <==> e in multiset(all);
    assert e in Without(t.pending, id) <==> e in multiset(Without(t.pending, id));
  }

  /** One more packet, handled on a target with nothing else pending. */
  lemma HandleProgress(codec: Codec<Snapshot>, id: SnapshotId, agent: Import, t: Target, k: nat, fate: Fate)
    requires Ready(codec, agent, t) && k < |Packets(codec, id, agent)|
    ensures var before, packet := Progress(codec, id, agent, t, k), Packets(codec, id, agent)[k];
            var (t', ok) := Handle(codec, before, packet, fate.rehash, fate.importFails);
            if k + 1 == |Packets(codec, id, agent)| && fate.importFails then t' == t && !ok
            else t' == Progress(codec, id, agent, t, k + 1) && ok
  {
    var chunks := Split(codec.encode(agent.snapshot), 0);
    PacketAt(codec, id, agent, k);
    if k == |chunks| + 1 {
      assert chunks[..k - 1] == chunks;
      HandleCommit(codec, id, agent, t, fate);
    } else if k > 0 {
      assert chunks[..k] == chunks[..k - 1] + [chunks[k - 1]];
      HandleChunk(codec, Pending(id, agent.manifest, chunks[..k - 1]), t, chunks[k - 1], fate);
    } else {
      InsertionAlone(t.pending, Pending(id, agent.manifest, []), fate.rehash);
    }
  }

  lemma SafeStep(codec: Codec<Snapshot>, id: SnapshotId, agent: Import, t: Target, s: State, fate: Fate)
    requires Ready(codec, agent, t) && SafeState(codec, id, agent, t, s)
    ensures SafeState(codec, id, agent, t, Next(codec, Packets(codec, id, agent), s, fate))
  {
    if !s.failed && s.registered && s.sent < |Packets(codec, id, agent)| {
      HandleProgress(codec, id, agent, t, s.sent, fate);
    }
  }

  /**
   With nothing pending at the target, in every reachable state and whatever is
   lost, the agent is registered at the source or imported exactly at the target,
   and the target imports it at most once and nothing else.
   */
  lemma {:induction false} HandOffIsSafe(codec: Codec<Snapshot>, id: SnapshotId, agent: Import, t: Target,
                                         fates: seq<Fate>)
    requires Ready(codec, agent, t)
    ensures var s := Run(codec, Packets(codec, id, agent), Start(t), fates);
            && SafeState(codec, id, agent, t, s)
            && (s.registered || s.target.imported == t.imported + [agent])
    decreases |fates|
  {
    if fates != [] {
      var before := fates[..|fates| - 1];
      HandOffIsSafe(codec, id, agent, t, before);
      SafeStep(codec, id, agent, t, Run(codec, Packets(codec, id, agent), Start(t), before), fates[|fates| - 1]);
      PacketAt(codec, id, agent, 0);
    }
  }

  /** The packet arrives and is handled; only the commit, the last one, can fail to be. */
  predicate Lands(f: Fate, last: bool) {
    f.delivered && (last ==> !f.importFails)
  }

  /** The first `k` of `n` packets land and are acknowledged. */
  predicate Smooth(fates: seq<Fate>, k: nat, n: nat) {
    k <= |fates| && forall i: nat | i < k :: Lands(fates[i], i + 1 == n) && fates[i].acknowledged
  }

  lemma SmoothPrefix(fates: seq<Fate>, k: nat, n: nat)
    requires k < |fates|
    ensures Smooth(fates[..k], k, n) == Smooth(fates, k, n)
    ensures Smooth(fates, k + 1, n) <==> Smooth(fates, k, n) && Lands(fates[k], k + 1 == n) && fates[k].acknowledged
    ensures n <= k ==> Smooth(fates[..k], n, n) == Smooth(fates, n, n)
    ensures 0 < n <= k ==> Smooth(fates[..k], n - 1, n) == Smooth(fates, n - 1, n)
  {
    assert forall i: nat | i < k :: fates[..k][i] == fates[i];
  }

  /** One step from an unfailed state of a safe run. */
  lemma StepFrom(codec: Codec<Snapshot>, id: SnapshotId, agent: Import, t: Target, s: State, fate: Fate)
    requires Ready(codec, agent, t) && SafeState(codec, id, agent, t, s) && !s.failed
    ensures var s', n := Next(codec, Packets(codec, id, agent), s, fate), |Packets(codec, id, agent)|;
            if s.sent == n then s' == s.(registered := false) && s.target == Progress(codec, id, agent, t, n)
            else
              && s'.registered
              && (s'.failed <==> !(Lands(fate, s.sent + 1 == n) && fate.acknowledged))
              && s'.sent == (if s'.failed then s.sent else s.sent + 1)
              && (s'.target.imported == t.imported + [agent] <==> s.sent + 1 == n && Lands(fate, true))
  {
    PacketAt(codec, id, agent, 0);
    assert |t.imported + [agent]| > |t.imported|;
    if s.sent < |Packets(codec, id, agent)| {
      HandleProgress(codec, id, agent, t, s.sent, fate);
    }
  }

  /** How far `fates` bring the source of a migration of `n` packets. */
  predicate GetsTo(s: State, fates: seq<Fate>, n: nat) {
    && (!s.failed <==> Smooth(fates, if |fates| < n then |fates| else n, n))
    && (!s.registered <==> |fates| > n && Smooth(fates, n, n))
    && (!s.failed ==> s.sent == if |fates| < n then |fates| else n)
  }

  lemma GetsFurther(codec: Codec<Snapshot>, id: SnapshotId, agent: Import, t: Target, s: State, fates: seq<Fate>)
    requires Ready(codec, agent, t) && SafeState(codec, id, agent, t, s)
    requires fates != [] && GetsTo(s, fates[..|fates| - 1], |Packets(codec, id, agent)|)
    ensures GetsTo(Next(codec, Packets(codec, id, agent), s, fates[|fates| - 1]), fates, |Packets(codec, id, agent)|)
  {
    SmoothPrefix(fates, |fates| - 1, |Packets(codec, id, agent)|);
    if !s.failed {
      StepFrom(codec, id, agent, t, s, fates[|fates| - 1]);
    }
  }

  /**
   The source lets go exactly when every packet arrived, was handled and was
   acknowledged, and it then took its last step; the target then holds exactly the agent.
   */
  lemma {:induction false} HandsOverIff(codec: Codec<Snapshot>, id: SnapshotId, agent: Import, t: Target,
                                        fates: seq<Fate>)
    requires Ready(codec, agent, t)
    ensures var s, n := Run(codec, Packets(codec, id, agent), Start(t), fates), |Packets(codec, id, agent)|;
            GetsTo(s, fates, n) && (!s.registered ==> s.target == t.(imported := t.imported + [agent]))
    decreases |fates|
  {
    PacketAt(codec, id, agent, 0);
    HandOffIsSafe(codec, id, agent, t, fates);
    if fates != [] {
      var before := fates[..|fates| - 1];
      HandsOverIff(codec, id, agent, t, before);
      HandOffIsSafe(codec, id, agent, t, before);
      GetsFurther(codec, id, agent, t, Run(codec, Packets(codec, id, agent), Start(t), before), fates);
    }
  }

  /** Everything before the commit went through, and the commit landed. */
  predicate CommitLands(fates: seq<Fate>, n: nat) {
    0 < n <= |fates| && Smooth(fates, n - 1, n) && Lands(fates[n - 1], true)
  }

  lemma ImportsFurther(codec: Codec<Snapshot>, id: SnapshotId, agent: Import, t: Target, s: State, fates: seq<Fate>)
    requires Ready(codec, agent, t) && SafeState(codec, id, agent, t, s)
    requires fates != [] && GetsTo(s, fates[..|fates| - 1], |Packets(codec, id, agent)|)
    requires s.target.imported == t.imported + [agent]
        <==> CommitLands(fates[..|fates| - 1], |Packets(codec, id, agent)|)
    ensures Next(codec, Packets(codec, id, agent), s, fates[|fates| - 1]).target.imported == t.imported + [agent]
       <==> CommitLands(fates, |Packets(codec, id, agent)|)
  {
    PacketAt(codec, id, agent, 0);
    SmoothPrefix(fates, |fates| - 1, |Packets(codec, id, agent)|);
    if !s.failed {
      StepFrom(codec, id, agent, t, s, fates[|fates| - 1]);
    }
  }

  lemma {:induction false} ImportedIff(codec: Codec<Snapshot>, id: SnapshotId, agent: Import, t: Target,
                                       fates: seq<Fate>)
    requires Ready(codec, agent, t)
    ensures Run(codec, Packets(codec, id, agent), Start(t), fates).target.imported == t.imported + [agent]
       <==> CommitLands(fates, |Packets(codec, id, agent)|)
    decreases |fates|
  {
    if fates == [] {
      assert |t.imported + [agent]| > |t.imported|;
    } else {
      var before := fates[..|fates| - 1];
      ImportedIff(codec, id, agent, t, before);
      HandsOverIff(codec, id, agent, t, before);
      HandOffIsSafe(codec, id, agent, t, before);
      ImportsFurther(codec, id, agent, t, Run(codec, Packets(codec, id, agent), Start(t), before), fates);
    }
  }

  /**
   Safe but not exactly once. Over every run, the agent ends on both nodes, the
   source having given up, exactly when everything up to the commit went
   through, the commit arrived and its import went through, and only its
   acknowledgement was lost. While the source has not given up, both nodes hold
   the agent just between the acknowledged commit and the source's last step.
   */
  lemma LostAckDuplicatesIff(codec: Codec<Snapshot>, id: SnapshotId, agent: Import, t: Target, fates: seq<Fate>)
    requires Ready(codec, agent, t)
    ensures var s, n := Run(codec, Packets(codec, id, agent), Start(t), fates), |Packets(codec, id, agent)|;
            && (s.failed && s.registered && s.target.imported == t.imported + [agent]
                <==> CommitLands(fates, n) && !fates[n - 1].acknowledged)
            && (!s.failed && s.registered && s.target.imported == t.imported + [agent]
                <==> CommitLands(fates, n) && fates[n - 1].acknowledged && |fates| == n)
  {
    PacketAt(codec, id, agent, 0);
    ImportedIff(codec, id, agent, t, fates);
    HandsOverIff(codec, id, agent, t, fates);
    HandOffIsSafe(codec, id, agent, t, fates);
    var n := |Packets(codec, id, agent)|;
    if n <= |fates| {
      SmoothPrefix(fates, n - 1, n);
    }
  }

  // ---------------------------------------------------------------------
  // Whole migrations at the target
  // ---------------------------------------------------------------------

  /** The target handling packets one by one until one is not acknowledged. */
  function HandleAll(codec: Codec<Snapshot>, t: Target, packets: seq<Packet>, rehash: Rehash): (Target, bool)
    decreases |packets|
  {
    if packets == [] then (t, true)
    else
      var (t', ok) := Handle(codec, t, packets[0], rehash, false);
      if ok then HandleAll(codec, t', packets[1..], rehash) else (t', false)
  }

  function ChunksOf(packets: seq<Packet>): seq<Chunk>
    requires forall p <- packets :: p.Payload?
  {
    if packets == [] then [] else [Chunk(packets[0].sequence, packets[0].chunk)] + ChunksOf(packets[1..])
  }

  function PushAll(pending: seq<Pending>, chunks: seq<Chunk>): (r: seq<Pending>)
    ensures |r| == |pending|
    decreases |chunks|
  {
    if chunks == [] then pending else PushAll(PushToLast(pending, chunks[0]), chunks[1..])
  }

  lemma {:induction false} HandlePayloads(codec: Codec<Snapshot>, t: Target, payloads: seq<Packet>, rest: seq<Packet>,
                                          rehash: Rehash)
    requires forall p <- payloads :: p.Payload?
    ensures HandleAll(codec, t, payloads + rest, rehash)
         == HandleAll(codec, t.(pending := PushAll(t.pending, ChunksOf(payloads))), rest, rehash)
    decreases |payloads|
  {
    if payloads == [] {
      assert payloads + rest == rest;
    } else {
      var all, chunk := payloads + rest, Chunk(payloads[0].sequence, payloads[0].chunk);
      assert all[0] == payloads[0] && all[1..] == payloads[1..] + rest;
      HandlePayloads(codec, t.(pending := PushToLast(t.pending, chunk)), payloads[1..], rest, rehash);
    }
  }

  lemma {:induction false} PushAllLast(pending: seq<Pending>, chunks: seq<Chunk>)
    requires pending != []
    ensures PushAll(pending, chunks) == pending[..|pending| - 1]
              + [pending[|pending| - 1].(chunks := pending[|pending| - 1].chunks + chunks)]
    decreases |chunks|
  {
    var last := pending[|pending| - 1];
    if chunks == [] {
      assert last.chunks + [] == last.chunks;
    } else {
      PushAllLast(PushToLast(pending, chunks[0]), chunks[1..]);
      assert last.chunks + [chunks[0]] + chunks[1..] == last.chunks + chunks;
    }
  }

  lemma {:induction false} ChunksOfPayloads(chunks: seq<Chunk>)
    ensures forall p <- PayloadPackets(chunks) :: p.Payload?
    ensures ChunksOf(PayloadPackets(chunks)) == chunks
  {
    if chunks != [] {
      ChunksOfPayloads(chunks[1..]);
    }
  }

  /** The entry a commit will take, once a new migration has been inserted and got its chunks. */
  function Taken(t: Target, manifest: Manifest, id: SnapshotId, chunks: seq<Chunk>, rehash: Rehash): Pending {
    if Without(t.pending, id) == [] then Pending(id, manifest, chunks)
    else Listed(t, manifest, id, rehash)[0]
  }

  /** The pending entries once a new migration is inserted: at least the new one. */
  function Listed(t: Target, manifest: Manifest, id: SnapshotId, rehash: Rehash): (r: seq<Pending>)
    ensures |r| == |Without(t.pending, id)| + 1
  {
    var r := Insertion(t.pending, Pending(id, manifest, []), rehash);
    assert |r| == |multiset(r)|;
    r
  }

  /** The remaining entries, in the same situation. */
  function Left(t: Target, manifest: Manifest, id: SnapshotId, chunks: seq<Chunk>, rehash: Rehash): seq<Pending> {
    PushAll(Listed(t, manifest, id, rehash), chunks)[1..]
  }

  lemma TakenIsFirst(t: Target, manifest: Manifest, id: SnapshotId, chunks: seq<Chunk>, rehash: Rehash)
    ensures PushAll(Listed(t, manifest, id, rehash), chunks)[0] == Taken(t, manifest, id, chunks, rehash)
  {
    PushAllLast(Listed(t, manifest, id, rehash), chunks);
    if Without(t.pending, id) == [] {
      InsertionAlone(t.pending, Pending(id, manifest, []), rehash);
      assert [] + chunks == chunks;
    }
  }

  /** A whole migration succeeds or fails as the entry that the commit happens to take decides. */
  lemma MigrationOutcome(codec: Codec<Snapshot>, id: SnapshotId, manifest: Manifest, t: Target, payloads: seq<Packet>,
                         rehash: Rehash)
    requires forall p <- payloads :: p.Payload?
    ensures var taken := Taken(t, manifest, id, ChunksOf(payloads), rehash);
            var left := t.(pending := Left(t, manifest, id, ChunksOf(payloads), rehash));
            HandleAll(codec, t, [Handshake(manifest, id)] + (payloads + [Commit]), rehash) ==
            match codec.decode(Assemble(taken.chunks))
            case Some(snapshot) => (left.(imported := t.imported + [Import(snapshot, taken.manifest)]), true)
            case None => (left, false)
  {
    var all := [Handshake(manifest, id)] + (payloads + [Commit]);
    assert all[0] == Handshake(manifest, id) && all[1..] == payloads + [Commit];
    var begun := t.(pending := Insertion(t.pending, Pending(id, manifest, []), rehash));
    HandlePayloads(codec, begun, payloads, [Commit], rehash);
    TakenIsFirst(t, manifest, id, ChunksOf(payloads), rehash);
    var full := begun.(pending := PushAll(begun.pending, ChunksOf(payloads)));
    assert [Commit][1..] == [];
    assert HandleAll(codec, full, [Commit], rehash) == Handle(codec, full, Commit, rehash, false);
  }

  lemma PacketsOutcome(codec: Codec<Snapshot>, id: SnapshotId, agent: Import, t: Target, rehash: Rehash)
    ensures var taken := Taken(t, agent.manifest, id, Split(codec.encode(agent.snapshot), 0), rehash);
            var (t', acknowledged) := HandleAll(codec, t, Packets(codec, id, agent), rehash);
            match codec.decode(Assemble(taken.chunks))
            case Some(snapshot) => acknowledged && t'.imported == t.imported + [Import(snapshot, taken.manifest)]
            case None => !acknowledged && t'.imported == t.imported
  {
    var chunks := Split(codec.encode(agent.snapshot), 0);
    ChunksOfPayloads(chunks);
    MigrationOutcome(codec, id, agent.manifest, t, PayloadPackets(chunks), rehash);
    assert Packets(codec, id, agent) == [Handshake(agent.manifest, id)] + (PayloadPackets(chunks) + [Commit]);
  }

  /** Payload packets may overtake each other between handshake and commit. */
  lemma PermutedDelivery(codec: Codec<Snapshot>, id: SnapshotId, agent: Import, t: Target, arrived: seq<Chunk>,
                         rehash: Rehash)
    requires Ready(codec, agent, t)
    requires multiset(arrived) == multiset(Split(codec.encode(agent.snapshot), 0))
    ensures HandleAll(codec, t, [Handshake(agent.manifest, id)] + (PayloadPackets(arrived) + [Commit]), rehash)
         == (t.(imported := t.imported + [agent]), true)
  {
    ChunksOfPayloads(arrived);
    Reassembles(codec.encode(agent.snapshot), arrived);
    MigrationOutcome(codec, id, agent.manifest, t, PayloadPackets(arrived), rehash);
    assert Left(t, agent.manifest, id, arrived, rehash) == [];
  }

  lemma {:induction false} HandleAllConcat(codec: Codec<Snapshot>, t: Target, a: seq<Packet>, b: seq<Packet>,
                                           rehash: Rehash)
    requires HandleAll(codec, t, a, rehash).1
    ensures HandleAll(codec, t, a + b, rehash) == HandleAll(codec, HandleAll(codec, t, a, rehash).0, b, rehash)
    decreases |a|
  {
    if a == [] {
      assert a + b == b;
    } else {
      TailOfConcat(a, b);
      HandleAllConcat(codec, Handle(codec, t, a[0], rehash, false).0, a[1..], b, rehash);
    }
  }

  /** A commit sent once more after a whole migration is acknowledged, and imports nothing a second time. */
  lemma SecondCommit(codec: Codec<Snapshot>, id: SnapshotId, agent: Import, t: Target, rehash: Rehash)
    requires Ready(codec, agent, t)
    ensures HandleAll(codec, t, Packets(codec, id, agent) + [Commit], rehash)
         == (t.(imported := t.imported + [agent]), true)
  {
    var packets, done := Packets(codec, id, agent), t.(imported := t.imported + [agent]);
    PermutedDelivery(codec, id, agent, t, Split(codec.encode(agent.snapshot), 0), rehash);
    assert packets
        == [Handshake(agent.manifest, id)] + (PayloadPackets(Split(codec.encode(agent.snapshot), 0)) + [Commit]);
    HandleAllConcat(codec, t, packets, [Commit], rehash);
    assert [Commit][1..] == [] && Handle(codec, done, Commit, rehash, false) == (done, true);
  }

  /**
   The general rule, whatever was pending: the migration delivers its own
   snapshot exactly when no other entry is pending, or the entry that the
   commit takes happens to hold the same agent already.
   */
  lemma StaleEntryDecides(codec: Codec<Snapshot>, id: SnapshotId, agent: Import, t: Target, rehash: Rehash)
    requires codec.Correct() && |Split(codec.encode(agent.snapshot), 0)| <= U32
    ensures var taken := Taken(t, agent.manifest, id, Split(codec.encode(agent.snapshot), 0), rehash);
            var (t', acknowledged) := HandleAll(codec, t, Packets(codec, id, agent), rehash);
            acknowledged && t'.imported == t.imported + [agent] <==>
              || Without(t.pending, id) == []
              || (codec.decode(Assemble(taken.chunks)) == Some(agent.snapshot) && taken.manifest == agent.manifest)
  {
    var chunks := Split(codec.encode(agent.snapshot), 0);
    PacketsOutcome(codec, id, agent, t, rehash);
    Reassembles(codec.encode(agent.snapshot), chunks);
    var taken := Taken(t, agent.manifest, id, chunks, rehash);
    match codec.decode(Assemble(taken.chunks))
    case Some(snapshot) =>
      assert (t.imported + [Import(snapshot, taken.manifest)])[|t.imported|] == Import(snapshot, taken.manifest);
      assert (t.imported + [agent])[|t.imported|] == agent;
    case None =>
  }

  /**
   A first attempt whose commit never arrived leaves its entry behind, and
   spoils every retry with a newer snapshot. If the hash map lists the old entry
   first, the target revives the old snapshot, acknowledges, and the source
   gives the agent up; if it lists the new one first, the commit takes that one,
   with no chunk at all.
   */
  lemma RetryLosesNewState(codec: Codec<Snapshot>, id: SnapshotId, retryId: SnapshotId, before: Import, after: Import,
                           rehash: Rehash)
    requires codec.Correct() && id != retryId
    requires |Split(codec.encode(before.snapshot), 0)| <= U32
    ensures var stale := Progress(codec, id, before, Target([], []), |Packets(codec, id, before)| - 1);
            var (t, acknowledged) := HandleAll(codec, stale, Packets(codec, retryId, after), rehash);
            if Listed(stale, after.manifest, retryId, rehash)[0].snapshotId == id then
              acknowledged && t.imported == [before]
            else match codec.decode([])
              case None => !acknowledged && t.imported == []
              case Some(blank) => acknowledged && t.imported == [Import(blank, after.manifest)]
  {
    var stale := Progress(codec, id, before, Target([], []), |Packets(codec, id, before)| - 1);
    LeftBehind(codec, id, before);
    ListedIsEither(stale, after.manifest, retryId, rehash, stale.pending[0]);
    PacketsOutcome(codec, retryId, after, stale, rehash);
    assert Assemble([]) == [];
  }

  /** What a first attempt leaves whose commit never arrived. */
  lemma LeftBehind(codec: Codec<Snapshot>, id: SnapshotId, agent: Import)
    requires codec.Correct() && |Split(codec.encode(agent.snapshot), 0)| <= U32
    ensures var stale := Progress(codec, id, agent, Target([], []), |Packets(codec, id, agent)| - 1);
            && |stale.pending| == 1 && stale.imported == []
            && stale.pending[0].snapshotId == id && stale.pending[0].manifest == agent.manifest
            && codec.decode(Assemble(stale.pending[0].chunks)) == Some(agent.snapshot)
  {
    var chunks := Split(codec.encode(agent.snapshot), 0);
    PacketAt(codec, id, agent, 0);
    assert chunks[..|chunks|] == chunks;
    Reassembles(codec.encode(agent.snapshot), chunks);
  }

  lemma ListedIsEither(t: Target, manifest: Manifest, id: SnapshotId, rehash: Rehash, left: Pending)
    requires t.pending == [left] && left.snapshotId != id
    ensures Without(t.pending, id) == [left]
    ensures Listed(t, manifest, id, rehash)[0] in {left, Pending(id, manifest, [])}
  {
    assert t.pending[1..] == [];
    var all := Listed(t, manifest, id, rehash);
    assert all[0] in multiset(all);
  }

  // ---------------------------------------------------------------------
  // By way of a registry
  // ---------------------------------------------------------------------

  /** A notice makes the target pull what the registry stores under the alias, here `pulled`, and import it. */
  function HandleNotice(t: Target, manifest: Manifest, pulled: Option<Snapshot>, importFails: bool): (Target, bool) {
    if pulled.None? || importFails then (t, false)
    else (t.(imported := t.imported + [Import(pulled.value, manifest)]), true)
  }

  datatype Route =
    | Direct(fates: seq<Fate>)
    | ViaRegistry(configured: bool, pushed: bool, pulled: Option<Snapshot>, fate: Fate)

  /** What the notice leaves: the target and whether the alias is still registered at the source. */
  function AfterNotice(t: Target, manifest: Manifest, pulled: Option<Snapshot>, fate: Fate): (Target, bool) {
    if !fate.delivered then (t, true)
    else
      var (t', ok) := HandleNotice(t, manifest, pulled, fate.importFails);
      (t', !(ok && fate.acknowledged))
  }

  // ---------------------------------------------------------------------
  // The code
  // ---------------------------------------------------------------------

  datatype TeleportError = PermissionDenied | TargetError | Network

  /** The receiving node: its pending map and the snapshots it has imported. */
  class MigrationManager {
    var pending: seq<Pending>
    var imported: seq<Import>

    function Value(): Target
      reads this
    {
      Target(pending, imported)
    }

    constructor ()
      ensures Value() == Target([], [])
    {
      pending, imported := [], [];
    }

    method HandleMigrationPacket(codec: Codec<Snapshot>, packet: Packet, rehash: Rehash, importFails: bool)
      returns (ok: bool)
      modifies this
      ensures (Value(), ok) == Handle(codec, old(Value()), packet, rehash, importFails)
    {
      match packet
      case Handshake(manifest, id) =>
        pending := Insertion(pending, Pending(id, manifest, []), rehash);
        ok := true;
      case Payload(chunk, sequence) =>
        if pending != [] {
          var last := |pending| - 1;
          var entry := pending[last].(chunks := pending[last].chunks + [Chunk(sequence, chunk)]);
          pending := pending[..last] + [entry];
        }
        ok := true;
      case Commit =>
        if pending == [] {
          return true;
        }
        var first := pending[0];
        pending := pending[1..];
        var full := Assemble(first.chunks);
        match codec.decode(full) {
          case None => ok := false;
          case Some(snapshot) =>
            if !importFails {
              imported := imported + [Import(snapshot, first.manifest)];
            }
            ok := !importFails;
        }
    }

    method HandleRegistryMigration(manifest: Manifest, pulled: Option<Snapshot>, importFails: bool) returns (ok: bool)
      modifies this
      ensures (Value(), ok) == HandleNotice(old(Value()), manifest, pulled, importFails)
    {
      if pulled.None? || importFails {
        return false;
      }
      imported := imported + [Import(pulled.value, manifest)];
      ok := true;
    }

    /** One command from the sending node, and whether its acknowledgement came back. */
    method SendCommand(codec: Codec<Snapshot>, packet: Packet, fate: Fate) returns (ok: bool)
      modifies this
      ensures (Value(), ok) == Send(codec, old(Value()), packet, fate)
    {
      if !fate.delivered {
        return false;
      }
      ok := HandleMigrationPacket(codec, packet, fate.rehash, fate.importFails);
      ok := ok && fate.acknowledged;
    }
  }

  /** What the local sandbox says of the agent before anything is sent: its snapshot or its manifest may be missing. */
  datatype Local = Unknown | NotExported | Known(snapshotId: SnapshotId, agent: Import)

  /** Registration, target and result are those of the run of the protocol. */
  ghost predicate HandedOff(codec: Codec<Snapshot>, id: SnapshotId, agent: Import, start: State, fates: seq<Fate>,
                            registered: bool, target: Target, r: Result<nat, TeleportError>)
  {
    var s := Run(codec, Packets(codec, id, agent), start, fates);
    && registered == s.registered && target == s.target
    && r == if s.failed then Err(TargetError) else Ok(|codec.encode(agent.snapshot)|)
  }

  ghost predicate SentByRegistry(agent: Import, route: Route, t: Target,
                                 registered: bool, target: Target, r: Result<nat, TeleportError>)
    requires route.ViaRegistry?
  {
    if !route.configured || !route.pushed then registered && target == t && r == Err(Network)
    else
      && (target, registered) == AfterNotice(t, agent.manifest, route.pulled, route.fate)
      && r == if registered then Err(TargetError) else Ok(0)
  }

  ghost predicate Carries(packets: seq<Packet>, bytes: Bytes) {
    && |packets| == |Split(bytes, 0)| + 2
    && (forall k :: 0 < k <= |Split(bytes, 0)| ==>
          packets[k] == Payload(Split(bytes, 0)[k - 1].bytes, Split(bytes, 0)[k - 1].sequence))
    && packets[|packets| - 1] == Commit
  }

  lemma PacketsCarry(codec: Codec<Snapshot>, id: SnapshotId, agent: Import)
    ensures Carries(Packets(codec, id, agent), codec.encode(agent.snapshot))
  {
    var n := |Split(codec.encode(agent.snapshot), 0)|;
    PacketAt(codec, id, agent, 0);
    forall k | 0 < k <= n + 1
      ensures var chunks := Split(codec.encode(agent.snapshot), 0);
              Packets(codec, id, agent)[k] ==
              if k <= n then Payload(chunks[k - 1].bytes, chunks[k - 1].sequence) else Commit
    {
      PacketAt(codec, id, agent, k);
    }
  }

  lemma {:induction false} FailedStays(codec: Codec<Snapshot>, packets: seq<Packet>, s: State, fates: seq<Fate>, n: nat)
    requires n <= |fates| && Run(codec, packets, s, fates[..n]).failed
    ensures Run(codec, packets, s, fates) == Run(codec, packets, s, fates[..n])
    decreases |fates|
  {
    if n < |fates| {
      assert fates[..|fates| - 1][..n] == fates[..n];
      FailedStays(codec, packets, s, fates[..|fates| - 1], n);
    } else {
      assert fates[..n] == fates;
    }
  }

  lemma RunOneMore(codec: Codec<Snapshot>, packets: seq<Packet>, s: State, fates: seq<Fate>, i: nat)
    requires i < |fates|
    ensures Run(codec, packets, s, fates[..i + 1]) == Next(codec, packets, Run(codec, packets, s, fates[..i]), fates[i])
  {
    assert fates[..i + 1][..i] == fates[..i];
  }

  /** The end of the chunk that starts at `offset`. */
  function ChunkEnd(bytes: Bytes, offset: nat): nat {
    if offset + CHUNK_SIZE < |bytes| then offset + CHUNK_SIZE else |bytes|
  }

  /** The chunks from `index` on are those of the bytes from `offset` on. */
  ghost predicate CutAt(bytes: Bytes, offset: nat, index: nat) {
    && offset <= |bytes| && index <= |Split(bytes, 0)|
    && Split(bytes, 0)[index..] == Split(bytes[offset..], index)
    && (offset == |bytes| ==> index == |Split(bytes, 0)|)
  }

  lemma CutAtStart(bytes: Bytes)
    ensures CutAt(bytes, 0, 0)
  {
    assert bytes[0..] == bytes;
  }

  lemma ChunkAt(bytes: Bytes, offset: nat, index: nat)
    requires offset < |bytes| && CutAt(bytes, offset, index)
    ensures index < |Split(bytes, 0)| && offset < ChunkEnd(bytes, offset)
    ensures Split(bytes, 0)[index] == Chunk(Sequence(index), bytes[offset..ChunkEnd(bytes, offset)])
    ensures CutAt(bytes, ChunkEnd(bytes, offset), index + 1)
  {
    var n := Head(bytes[offset..]);
    assert bytes[offset..][..n] == bytes[offset..offset + n];
    assert bytes[offset..][n..] == bytes[offset + n..];
    assert Split(bytes, 0)[index..][1..] == Split(bytes, 0)[index + 1..];
    assert Split(bytes, 0)[index..][0] == Split(bytes, 0)[index];
  }

  class TeleportRequest {
    var registered: bool

    constructor ()
      ensures registered
    {
      registered := true;
    }

    /** `route.fates[i]` is what becomes of packet `i`; the last one is unused. */
    method Execute(codec: Codec<Snapshot>, local: Local, target: MigrationManager, route: Route)
      returns (r: Result<nat, TeleportError>)
      requires registered
      requires local.Known? && route.Direct? ==>
                 |route.fates| == |Packets(codec, local.snapshotId, local.agent)| + 1
      modifies this, target
      ensures !local.Known? ==> r == Err(Network) && registered && target.Value() == old(target.Value())
      ensures local.Known? && !local.agent.manifest.canTeleport ==>
                r == Err(PermissionDenied) && registered && target.Value() == old(target.Value())
      ensures local.Known? && local.agent.manifest.canTeleport ==>
                match route
                case Direct(fates) =>
                  HandedOff(codec, local.snapshotId, local.agent, Start(old(target.Value())), fates,
                            registered, target.Value(), r)
                case ViaRegistry(_, _, _, _) =>
                  SentByRegistry(local.agent, route, old(target.Value()), registered, target.Value(), r)
    {
      if !local.Known? {
        return Err(Network);
      }
      if !local.agent.manifest.canTeleport {
        return Err(PermissionDenied);
      }
      match route
      case Direct(fates) => r := StreamDirectly(codec, local.snapshotId, local.agent, target, fates);
      case ViaRegistry(configured, pushed, pulled, fate) =>
        if !configured || !pushed {
          return Err(Network);
        }
        if !fate.delivered {
          return Err(TargetError);
        }
        var ok := target.HandleRegistryMigration(local.agent.manifest, pulled, fate.importFails);
        if !ok || !fate.acknowledged {
          return Err(TargetError);
        }
        registered := false;
        r := Ok(0);
    }

    method StreamDirectly(codec: Codec<Snapshot>, id: SnapshotId, agent: Import, target: MigrationManager,
                          fates: seq<Fate>) returns (r: Result<nat, TeleportError>)
      requires registered && |fates| == |Packets(codec, id, agent)| + 1
      modifies this, target
      ensures HandedOff(codec, id, agent, Start(old(target.Value())), fates, registered, target.Value(), r)
    {
      ghost var packets := Packets(codec, id, agent);
      ghost var start := Start(target.Value());
      assert fates[..0] == [];
      PacketsCarry(codec, id, agent);
      RunOneMore(codec, packets, start, fates, 0);
      var ok := target.SendCommand(codec, Handshake(agent.manifest, id), fates[0]);
      if !ok {
        FailedStays(codec, packets, start, fates, 1);
        return Err(TargetError);
      }
      var bytes := codec.encode(agent.snapshot);
      var bytesTransferred, i := SendChunks(codec, target, bytes, packets, fates, start);
      if bytesTransferred.None? {
        return Err(TargetError);
      }
      RunOneMore(codec, packets, start, fates, i);
      ok := target.SendCommand(codec, Commit, fates[i]);
      if !ok {
        FailedStays(codec, packets, start, fates, i + 1);
        return Err(TargetError);
      }
      RunOneMore(codec, packets, start, fates, i + 1);
      assert fates[..i + 2] == fates;
      registered := false;
      r := Ok(bytesTransferred.value);
    }

    /** The chunk loop. `i` counts the packets acknowledged, handshake included. */
    method SendChunks(codec: Codec<Snapshot>, target: MigrationManager, bytes: Bytes, ghost packets: seq<Packet>,
                      fates: seq<Fate>, ghost start: State) returns (bytesTransferred: Option<nat>, i: nat)
      requires Carries(packets, bytes) && |fates| == |packets| + 1
      requires Run(codec, packets, start, fates[..1]) == State(1, false, true, target.Value())
      modifies target
      ensures bytesTransferred.Some? ==>
                && bytesTransferred.value == |bytes| && i == |packets| - 1
                && Run(codec, packets, start, fates[..i]) == State(i, false, true, target.Value())
      ensures bytesTransferred.None? ==> Run(codec, packets, start, fates) == State(i, true, true, target.Value())
    {
      var offset := 0;
      i := 1;
      CutAtStart(bytes);
      while offset < |bytes|
        invariant 0 < i && CutAt(bytes, offset, i - 1)
        invariant Run(codec, packets, start, fates[..i]) == State(i, false, true, target.Value())
      {
        var next := ChunkEnd(bytes, offset);
        ChunkAt(bytes, offset, i - 1);
        RunOneMore(codec, packets, start, fates, i);
        var ok := target.SendCommand(codec, Payload(bytes[offset..next], Sequence(i - 1)), fates[i]);
        if !ok {
          FailedStays(codec, packets, start, fates, i + 1);
          return None, i;
        }
        offset, i := next, i + 1;
      }
      bytesTransferred := Some(offset);
    }
  }
}
