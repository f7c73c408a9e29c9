/**
 Reference counting of one layer file (src/shards.rs).

 Every handle carries its own read-only flag; all handles of a layer share one
 counter. `lost` counts the handles dropped while still writable, which the
 code does not subtract from the counter.
 */
module LayerCounting {

  const U64_MAX: nat := 0xFFFF_FFFF_FFFF_FFFF

  /** `live` maps each live handle to its read-only flag. */
  datatype LayerState<!H(==)> = LayerState(count: nat, live: map<H, bool>, lost: nat, removed: bool)

  datatype LayerOp<H> = CloneOp(from: H, to: H) | FreezeOp(handle: H) | DropOp(handle: H)

  function NewLayer<H>(handle: H, readonly: bool): LayerState<H> {
    LayerState(1, map[handle := readonly], 0, false)
  }

  /** An operation on a handle that is not live, or a copy onto a live one, does nothing. */
  function Step<H>(s: LayerState<H>, op: LayerOp<H>): LayerState<H> {
    match op
    case CloneOp(from, to) =>
      if from in s.live && to !in s.live
      then s.(count := s.count + 1, live := s.live[to := s.live[from]])
      else s
    case FreezeOp(h) =>
      if h in s.live then s.(live := s.live[h := true]) else s
    case DropOp(h) =>
      if h !in s.live then s
      else if !s.live[h] then s.(live := s.live - {h}, lost := s.lost + 1)
      else
        var remain := if s.count > 0 then s.count - 1 else 0;
        LayerState(if s.count > 0 then s.count - 1 else U64_MAX, s.live - {h}, s.lost, s.removed || remain == 0)
  }

  function Run<H>(s: LayerState<H>, ops: seq<LayerOp<H>>): LayerState<H>
    decreases |ops|
  {
    if ops == [] then s else Run(Step(s, ops[0]), ops[1..])
  }

  /** The counter is exact up to the lost handles, and the file is gone exactly when it reached zero. */
  ghost predicate Sound<H>(s: LayerState<H>) {
    && s.count == |s.live| + s.lost
    && (s.removed <==> s.count == 0)
  }

  lemma StepKeepsSound<H>(s: LayerState<H>, op: LayerOp<H>)
    requires Sound(s)
    ensures Sound(Step(s, op))
  {
    if op.CloneOp? && op.from in s.live && op.to !in s.live {
      assert s.live[op.to := s.live[op.from]].Keys == s.live.Keys + {op.to};
    } else if op.FreezeOp? && op.handle in s.live {
      assert s.live[op.handle := true].Keys == s.live.Keys;
    } else if op.DropOp? && op.handle in s.live {
      assert (s.live - {op.handle}).Keys == s.live.Keys - {op.handle};
    }
  }

  lemma {:induction false} RunKeepsSound<H>(s: LayerState<H>, ops: seq<LayerOp<H>>)
    requires Sound(s)
    ensures Sound(Run(s, ops))
    decreases |ops|
  {
    if ops != [] {
      StepKeepsSound(s, ops[0]);
      RunKeepsSound(Step(s, ops[0]), ops[1..]);
    }
  }

  /**
   Over every run the counter is never below the number of live handles, and
   the file is removed exactly when the last handle is gone and none was
   dropped while writable: it never goes too early, and stays behind exactly
   when some handle was lost.
   */
  lemma FileOutlivesItsHandles<H>(first: H, readonly: bool, ops: seq<LayerOp<H>>)
    ensures var s := Run(NewLayer(first, readonly), ops);
            s.count >= |s.live| && (s.removed <==> s.live == map[] && s.lost == 0)
  {
    assert NewLayer(first, readonly).live.Keys == {first};
    RunKeepsSound(NewLayer(first, readonly), ops);
    var s := Run(NewLayer(first, readonly), ops);
    assert |s.live| == 0 <==> s.live == map[];
  }

  /** A copy taken before the freeze, then dropped, keeps the file on disk for ever. */
  lemma WritableCopyLeaks()
    ensures var s := Run(NewLayer(0, false), [CloneOp(0, 1), DropOp(1), FreezeOp(0), DropOp(0)]);
            s.live == map[] && !s.removed
  {
    var ops := [CloneOp(0, 1), DropOp(1), FreezeOp(0), DropOp(0)];
    var s0 := NewLayer(0, false);
    var s1 := Step(s0, ops[0]);
    var s2 := Step(s1, ops[1]);
    var s3 := Step(s2, ops[2]);
    assert ops[1..][1..] == ops[2..] && ops[2..][1..] == ops[3..] && ops[3..][1..] == [];
    assert Run(s0, ops) == Run(s1, ops[1..]) == Run(s2, ops[2..]) == Run(s3, ops[3..]);
    assert s2.live == map[0 := false];
    assert Run(s3, ops[3..]) == Run(Step(s3, ops[3]), []);
  }
}
