/**
 Fitting a conversation into a token budget (src/api/context): hydrate the
 block lengths, truncate large tool results, then evict blocks one at a time.
 */
module Context {
  import opened Wrappers

  datatype BlockType = System | User | Assistant | ToolResult

  /** `content` holds one character per byte. */
  datatype InputContentBlock = InputContentBlock(blockType: BlockType, content: string, isPersistent: bool,
                                                 importanceScore: real, blockLength: nat)

  type Blocks = seq<InputContentBlock>

  /** The hybrid score is a parameter: the source computes it in 32-bit floats. */
  datatype EvictionStrategy = Fifo | LargeBlockFirst | Hybrid(score: InputContentBlock -> real)

  datatype PruningReport = NoChange | Pruned(tokensRemoved: nat, blocksEvicted: nat)

  datatype ContextError = SystemPromptTooLarge | EstimatorFailure

  const NOTICE := "... [TRUNCATED BY CONTEXT ROUTER]"

  // ---------------------------------------------------------------------
  // Estimates
  // ---------------------------------------------------------------------

  function EstimateBlock(b: InputContentBlock): nat {
    if b.content == "" then 1 else (|b.content| + 3) / 4
  }

  function Weight(bs: Blocks): nat {
    if bs == [] then 0 else EstimateBlock(bs[0]) + Weight(bs[1..])
  }

  /** The sum marked up by 15 percent, rounded up. */
  function Markup(total: nat): nat {
    (23 * total + 19) / 20
  }

  function Estimate(bs: Blocks): nat {
    Markup(Weight(bs))
  }

  /** A block counts for a quarter of its length, rounded up, but at least one; the mark-up rounds up, too. */
  lemma EstimatesRoundUp(b: InputContentBlock, total: nat)
    ensures var n := EstimateBlock(b); n >= 1 && |b.content| <= 4 * n && (n > 1 ==> 4 * (n - 1) < |b.content|)
    ensures 100 * Markup(total) >= 115 * total && (total > 0 ==> 100 * (Markup(total) - 1) < 115 * total)
    ensures total == 0 ==> Markup(total) == 0
  {
  }

  lemma MarkupMonotone(a: nat, b: nat)
    requires a <= b
    ensures Markup(a) <= Markup(b)
  {
  }

  method EstimateTokens(bs: Blocks) returns (tokens: nat)
    ensures tokens == Estimate(bs)
  {
    var total := 0;
    for i := 0 to |bs|
      invariant total + Weight(bs[i..]) == Weight(bs)
    {
      total := total + EstimateBlock(bs[i]);
    }
    tokens := Markup(total);
  }

  // ---------------------------------------------------------------------
  // Hydration and truncation
  // ---------------------------------------------------------------------

  function HydrateBlock(b: InputContentBlock): InputContentBlock {
    b.(blockLength := EstimateBlock(b))
  }

  function Map(f: InputContentBlock -> InputContentBlock, bs: Blocks): (r: Blocks)
    ensures |r| == |bs| && forall i :: 0 <= i < |bs| ==> r[i] == f(bs[i])
  {
    seq(|bs|, i requires 0 <= i < |bs| => f(bs[i]))
  }

  function Hydrate(bs: Blocks): Blocks {
    Map(HydrateBlock, bs)
  }

  ghost predicate Hydrated(bs: Blocks) {
    forall b <- bs :: b.blockLength == EstimateBlock(b)
  }

  /** A tool result over half the window is cut to half the window, notice included, if the notice fits. */
  function TruncateBlock(maxTokens: nat, b: InputContentBlock): InputContentBlock {
    var half := maxTokens / 2;
    var target := if half * 4 > |b.content| then |b.content| else half * 4;
    if b.blockType == ToolResult && b.blockLength > half && target > |NOTICE|
    then HydrateBlock(b.(content := b.content[..target - |NOTICE|] + NOTICE))
    else b
  }

  function Truncate(maxTokens: nat, bs: Blocks): Blocks {
    Map((b: InputContentBlock) => TruncateBlock(maxTokens, b), bs)
  }

  /** The session as it stands before the first eviction. */
  function Prepared(maxTokens: nat, bs: Blocks): Blocks {
    Truncate(maxTokens, Hydrate(bs))
  }

  // ---------------------------------------------------------------------
  // Eviction
  // ---------------------------------------------------------------------

  /** The last of the non-persistent blocks with the greatest key. */
  function LastMax(key: InputContentBlock -> real, bs: Blocks): (r: Option<nat>)
    ensures r.None? <==> forall b <- bs :: b.isPersistent
    ensures r.Some? ==>
              && r.value < |bs| && !bs[r.value].isPersistent
              && (forall i :: 0 <= i < |bs| && !bs[i].isPersistent ==> key(bs[i]) <= key(bs[r.value]))
              && (forall i :: r.value < i < |bs| && !bs[i].isPersistent ==> key(bs[i]) < key(bs[r.value]))
  {
    if bs == [] then None
    else
      var last := |bs| - 1;
      assert forall b <- bs :: b == bs[last] || b in bs[..last];
      var best := LastMax(key, bs[..last]);
      if !bs[last].isPersistent && (best.None? || key(bs[last]) >= key(bs[best.value])) then Some(last) else best
  }

  function FirstEvictable(bs: Blocks): (r: Option<nat>)
    ensures r.None? <==> forall b <- bs :: b.isPersistent
    ensures r.Some? ==> r.value < |bs| && !bs[r.value].isPersistent
    ensures r.Some? ==> forall i :: 0 <= i < r.value ==> bs[i].isPersistent
  {
    if bs == [] then None
    else if !bs[0].isPersistent then Some(0)
    else
      assert forall b <- bs :: b == bs[0] || b in bs[1..];
      match FirstEvictable(bs[1..]) case Some(i) => Some(i + 1) case None => None
  }

  function Candidate(strategy: EvictionStrategy, bs: Blocks): (r: Option<nat>)
    ensures r.None? <==> forall b <- bs :: b.isPersistent
    ensures r.Some? ==> r.value < |bs| && !bs[r.value].isPersistent
  {
    match strategy
    case Fifo => FirstEvictable(bs)
    case LargeBlockFirst => LastMax((b: InputContentBlock) => b.blockLength as real, bs)
    case Hybrid(score) => LastMax(score, bs)
  }

  function RemoveAt<T>(s: seq<T>, i: nat): seq<T>
    requires i < |s|
  {
    s[..i] + s[i + 1..]
  }

  /** Evicts candidates until the estimate fits or none is left. */
  function Evict(strategy: EvictionStrategy, maxTokens: nat, bs: Blocks): Blocks
    decreases |bs|
  {
    if Estimate(bs) <= maxTokens then bs
    else
      match Candidate(strategy, bs)
      case Some(i) => Evict(strategy, maxTokens, RemoveAt(bs, i))
      case None => bs
  }

  // ---------------------------------------------------------------------
  // Weights under removal
  // ---------------------------------------------------------------------

  lemma {:induction false} WeightConcat(a: Blocks, b: Blocks)
    ensures Weight(a + b) == Weight(a) + Weight(b)
  {
    if a == [] {
      assert a + b == b;
    } else {
      TailOfConcat(a, b);
      WeightConcat(a[1..], b);
    }
  }

  lemma SplitAt(bs: Blocks, i: nat)
    requires i < |bs|
    ensures bs == bs[..i] + ([bs[i]] + bs[i + 1..])
  {
  }

  lemma PersistentSkips(b: InputContentBlock, rest: Blocks)
    requires !b.isPersistent
    ensures Persistent([b] + rest) == Persistent(rest)
  {
    assert ([b] + rest)[1..] == rest;
  }

  function Persistent(bs: Blocks): Blocks {
    if bs == [] then [] else (if bs[0].isPersistent then [bs[0]] else []) + Persistent(bs[1..])
  }

  lemma {:induction false} PersistentConcat(a: Blocks, b: Blocks)
    ensures Persistent(a + b) == Persistent(a) + Persistent(b)
  {
    if a == [] {
      assert a + b == b;
    } else {
      TailOfConcat(a, b);
      PersistentConcat(a[1..], b);
      ConcatAssociates(if a[0].isPersistent then [a[0]] else [], Persistent(a[1..]), Persistent(b));
    }
  }

  lemma RemoveKeepsPersistent(bs: Blocks, i: nat)
    requires i < |bs| && !bs[i].isPersistent
    ensures Persistent(RemoveAt(bs, i)) == Persistent(bs)
  {
    PersistentConcat(bs[..i], bs[i + 1..]);
    PersistentConcat(bs[..i], [bs[i]] + bs[i + 1..]);
    SplitAt(bs, i);
    PersistentSkips(bs[i], bs[i + 1..]);
  }

  lemma {:induction false} PersistentWeight(bs: Blocks)
    ensures Weight(Persistent(bs)) <= Weight(bs)
    ensures (forall b <- bs :: b.isPersistent) ==> Persistent(bs) == bs
  {
    if bs != [] {
      PersistentWeight(bs[1..]);
      WeightConcat(if bs[0].isPersistent then [bs[0]] else [], Persistent(bs[1..]));
      assert bs == [bs[0]] + bs[1..];
    }
  }

  // ---------------------------------------------------------------------
  // Sets of evicted blocks, as masks
  // ---------------------------------------------------------------------

  function Kept(bs: Blocks, gone: seq<bool>): Blocks
    requires |gone| == |bs|
  {
    if bs == [] then [] else (if gone[0] then [] else [bs[0]]) + Kept(bs[1..], gone[1..])
  }

  function Count(gone: seq<bool>): nat {
    if gone == [] then 0 else (if gone[0] then 1 else 0) + Count(gone[1..])
  }

  /** `gone` marks only blocks that may be evicted. */
  ghost predicate Evictable(bs: Blocks, gone: seq<bool>) {
    |gone| == |bs| && forall i :: 0 <= i < |bs| && gone[i] ==> !bs[i].isPersistent
  }

  lemma {:induction false} KeptLength(bs: Blocks, gone: seq<bool>)
    requires |gone| == |bs|
    ensures |Kept(bs, gone)| == |bs| - Count(gone)
    ensures Count(gone) <= |bs|
  {
    if bs != [] {
      KeptLength(bs[1..], gone[1..]);
    }
  }

  lemma {:induction false} KeptWithout(bs: Blocks, gone: seq<bool>, i: nat)
    requires |gone| == |bs| && i < |bs|
    ensures Weight(Kept(RemoveAt(bs, i), RemoveAt(gone, i)))
         == Weight(Kept(bs, gone)) - (if gone[i] then 0 else EstimateBlock(bs[i]))
    ensures Count(RemoveAt(gone, i)) == Count(gone) - (if gone[i] then 1 else 0)
  {
    if i == 0 {
      assert RemoveAt(bs, 0) == bs[1..] && RemoveAt(gone, 0) == gone[1..];
      WeightConcat(if gone[0] then [] else [bs[0]], Kept(bs[1..], gone[1..]));
    } else {
      var b, g := RemoveAt(bs, i), RemoveAt(gone, i);
      assert b[0] == bs[0] && b[1..] == RemoveAt(bs[1..], i - 1);
      assert g[0] == gone[0] && g[1..] == RemoveAt(gone[1..], i - 1);
      KeptWithout(bs[1..], gone[1..], i - 1);
      WeightConcat(if gone[0] then [] else [bs[0]], Kept(bs[1..], gone[1..]));
      WeightConcat(if gone[0] then [] else [bs[0]], Kept(b[1..], g[1..]));
    }
  }

  lemma {:induction false} KeepOneMore(bs: Blocks, gone: seq<bool>, i: nat)
    requires |gone| == |bs| && i < |bs| && gone[i]
    ensures Weight(Kept(bs, gone[i := false])) == Weight(Kept(bs, gone)) + EstimateBlock(bs[i])
    ensures Count(gone[i := false]) == Count(gone) - 1
  {
    var g := gone[i := false];
    if i == 0 {
      assert g[1..] == gone[1..];
      WeightConcat([bs[0]], Kept(bs[1..], gone[1..]));
      WeightConcat([], Kept(bs[1..], gone[1..]));
    } else {
      assert g[1..] == gone[1..][i - 1 := false];
      KeepOneMore(bs[1..], gone[1..], i - 1);
      WeightConcat(if gone[0] then [] else [bs[0]], Kept(bs[1..], gone[1..]));
      WeightConcat(if gone[0] then [] else [bs[0]], Kept(bs[1..], g[1..]));
    }
  }

  lemma {:induction false} NothingGone(bs: Blocks, gone: seq<bool>)
    requires |gone| == |bs|
    ensures Count(gone) == 0 <==> forall i :: 0 <= i < |gone| ==> !gone[i]
    ensures Count(gone) == 0 ==> Kept(bs, gone) == bs
  {
    if bs != [] {
      NothingGone(bs[1..], gone[1..]);
      assert bs == [bs[0]] + bs[1..];
      assert (forall i :: 0 <= i < |gone| ==> !gone[i])
        <==> !gone[0] && forall i :: 0 <= i < |gone| - 1 ==> !gone[1..][i];
    }
  }

  // ---------------------------------------------------------------------
  // Largest first is optimal
  // ---------------------------------------------------------------------

  /** After evicting the largest block, some set one smaller than `gone` leaves no more weight. */
  lemma ExchangeLargest(bs: Blocks, gone: seq<bool>, m: nat) returns (rest: seq<bool>)
    requires Hydrated(bs) && Evictable(bs, gone) && Count(gone) > 0
    requires Candidate(LargeBlockFirst, bs) == Some(m)
    ensures Evictable(RemoveAt(bs, m), rest) && Count(rest) == Count(gone) - 1
    ensures Weight(Kept(RemoveAt(bs, m), rest)) <= Weight(Kept(bs, gone))
  {
    var next := gone;
    if !gone[m] {
      NothingGone(bs, gone);
      var x :| 0 <= x < |gone| && gone[x];
      next := gone[x := false];
      KeepOneMore(bs, gone, x);
      LargestIsHeaviest(bs, m, x);
    }
    rest := RemoveAt(next, m);
    KeptWithout(bs, next, m);
    EvictableWithout(bs, next, m);
  }

  lemma LargestIsHeaviest(bs: Blocks, m: nat, x: nat)
    requires Hydrated(bs) && Candidate(LargeBlockFirst, bs) == Some(m) && x < |bs| && !bs[x].isPersistent
    ensures EstimateBlock(bs[x]) <= EstimateBlock(bs[m])
  {
    assert bs[x] in bs && bs[m] in bs;
  }

  lemma EvictableWithout(bs: Blocks, gone: seq<bool>, m: nat)
    requires Evictable(bs, gone) && m < |bs|
    ensures Evictable(RemoveAt(bs, m), RemoveAt(gone, m))
  {
  }

  lemma HydratedWithout(bs: Blocks, i: nat)
    requires Hydrated(bs) && i < |bs|
    ensures Hydrated(RemoveAt(bs, i))
  {
  }

  /** No set of non-persistent blocks smaller than the one evicted meets the budget. */
  lemma {:induction false} LargestFirstEvictsFewest(maxTokens: nat, bs: Blocks, gone: seq<bool>)
    requires Hydrated(bs) && Evictable(bs, gone) && Estimate(Kept(bs, gone)) <= maxTokens
    ensures Estimate(Evict(LargeBlockFirst, maxTokens, bs)) <= maxTokens
    ensures |bs| - |Evict(LargeBlockFirst, maxTokens, bs)| <= Count(gone)
    decreases |bs|
  {
    if Estimate(bs) > maxTokens {
      NothingGone(bs, gone);
      var x :| 0 <= x < |gone| && gone[x];
      assert bs[x] in bs;
      var m := Candidate(LargeBlockFirst, bs).value;
      var rest := ExchangeLargest(bs, gone, m);
      HydratedWithout(bs, m);
      MarkupMonotone(Weight(Kept(RemoveAt(bs, m), rest)), Weight(Kept(bs, gone)));
      LargestFirstEvictsFewest(maxTokens, RemoveAt(bs, m), rest);
    }
  }

  // ---------------------------------------------------------------------
  // First in, first out evicts the shortest prefix
  // ---------------------------------------------------------------------

  /** `bs` without its first `k` non-persistent blocks. */
  function DropOldest(bs: Blocks, k: nat): Blocks {
    if k == 0 || bs == [] then bs
    else if bs[0].isPersistent then [bs[0]] + DropOldest(bs[1..], k)
    else DropOldest(bs[1..], k - 1)
  }

  lemma RemoveLater(bs: Blocks, i: nat)
    requires 0 < i < |bs|
    ensures RemoveAt(bs, i) == [bs[0]] + RemoveAt(bs[1..], i - 1)
  {
  }

  lemma {:induction false} DropOldestOne(bs: Blocks, i: nat)
    requires FirstEvictable(bs) == Some(i)
    ensures RemoveAt(bs, i) == DropOldest(bs, 1)
  {
    if i == 0 {
      assert RemoveAt(bs, 0) == bs[1..];
    } else {
      DropOldestOne(bs[1..], i - 1);
      RemoveLater(bs, i);
    }
  }

  lemma {:induction false} DropOldestMore(bs: Blocks, k: nat)
    ensures DropOldest(DropOldest(bs, 1), k) == DropOldest(bs, k + 1)
  {
    if bs != [] {
      if bs[0].isPersistent {
        DropOldestMore(bs[1..], k);
        assert DropOldest(bs, 1)[1..] == DropOldest(bs[1..], 1);
      }
    }
  }

  /** `out` lacks the `k` oldest evictable blocks of `bs`, and no shorter prefix would have met the budget. */
  ghost predicate ShortestPrefix(maxTokens: nat, bs: Blocks, out: Blocks, k: nat) {
    && out == DropOldest(bs, k) && |out| == |bs| - k
    && forall j :: 0 <= j < k ==> Estimate(DropOldest(bs, j)) > maxTokens
  }

  lemma OneMoreOldest(maxTokens: nat, bs: Blocks, rest: Blocks, out: Blocks, k: nat)
    requires Estimate(bs) > maxTokens && |rest| == |bs| - 1 && rest == DropOldest(bs, 1)
    requires ShortestPrefix(maxTokens, rest, out, k)
    ensures ShortestPrefix(maxTokens, bs, out, k + 1)
  {
    DropOldestMore(bs, k);
    forall j | 0 < j < k + 1 ensures Estimate(DropOldest(bs, j)) > maxTokens {
      DropOldestMore(bs, j - 1);
    }
  }

  /** The evicted blocks are the oldest evictable ones, as few as meet the budget. */
  lemma {:induction false} FifoEvictsShortestPrefix(maxTokens: nat, bs: Blocks) returns (k: nat)
    ensures ShortestPrefix(maxTokens, bs, Evict(Fifo, maxTokens, bs), k)
    decreases |bs|
  {
    k := 0;
    if Estimate(bs) > maxTokens {
      match FirstEvictable(bs)
      case None =>
      case Some(i) =>
        var rest := RemoveAt(bs, i);
        var fewer := FifoEvictsShortestPrefix(maxTokens, rest);
        DropOldestOne(bs, i);
        OneMoreOldest(maxTokens, bs, rest, Evict(Fifo, maxTokens, rest), fewer);
        k := fewer + 1;
    }
  }

  // ---------------------------------------------------------------------
  // Every strategy
  // ---------------------------------------------------------------------

  /** A mask of what is left, as one of what there was before a block was evicted. */
  function Inserted(rest: seq<bool>, i: nat): seq<bool>
    requires i <= |rest|
  {
    rest[..i] + [true] + rest[i..]
  }

  lemma {:induction false} InsertMask(bs: Blocks, i: nat, gone: seq<bool>)
    requires i < |bs| && |gone| == |bs| - 1
    ensures Kept(bs, Inserted(gone, i)) == Kept(RemoveAt(bs, i), gone)
  {
    var g := Inserted(gone, i);
    if i == 0 {
      assert g[1..] == gone && RemoveAt(bs, 0) == bs[1..];
    } else {
      assert g[1..] == Inserted(gone[1..], i - 1);
      assert RemoveAt(bs, i)[1..] == RemoveAt(bs[1..], i - 1);
      InsertMask(bs[1..], i - 1, gone[1..]);
    }
  }

  lemma InsertEvictable(bs: Blocks, i: nat, gone: seq<bool>)
    requires i < |bs| && !bs[i].isPersistent && Evictable(RemoveAt(bs, i), gone)
    ensures Evictable(bs, Inserted(gone, i))
  {
    var g := Inserted(gone, i);
    forall k | 0 <= k < |bs| && g[k] ensures !bs[k].isPersistent {
      if k < i {
        assert gone[k] && RemoveAt(bs, i)[k] == bs[k];
      } else if k > i {
        assert gone[k - 1] && RemoveAt(bs, i)[k - 1] == bs[k];
      }
    }
  }

  lemma {:induction false} KeptKeepsPersistent(bs: Blocks, gone: seq<bool>)
    requires Evictable(bs, gone)
    ensures Persistent(Kept(bs, gone)) == Persistent(bs)
    ensures Weight(Kept(bs, gone)) <= Weight(bs)
  {
    if bs != [] {
      KeptKeepsPersistent(bs[1..], gone[1..]);
      var head := if gone[0] then [] else [bs[0]];
      PersistentConcat(head, Kept(bs[1..], gone[1..]));
      WeightConcat(head, Kept(bs[1..], gone[1..]));
    }
  }

  /** What is left is the input without some evictable blocks. */
  lemma {:induction false} EvictRemovesEvictable(strategy: EvictionStrategy, maxTokens: nat, bs: Blocks)
    returns (gone: seq<bool>)
    ensures Evictable(bs, gone) && Evict(strategy, maxTokens, bs) == Kept(bs, gone)
    decreases |bs|
  {
    if Estimate(bs) > maxTokens && Candidate(strategy, bs).Some? {
      var i := Candidate(strategy, bs).value;
      var rest := EvictRemovesEvictable(strategy, maxTokens, RemoveAt(bs, i));
      gone := Inserted(rest, i);
      InsertMask(bs, i, rest);
      InsertEvictable(bs, i, rest);
    } else {
      gone := seq(|bs|, i => false);
      NothingGone(bs, gone);
      CountNone(gone);
    }
  }

  lemma {:induction false} CountNone(gone: seq<bool>)
    requires forall i :: 0 <= i < |gone| ==> !gone[i]
    ensures Count(gone) == 0
  {
    if gone != [] {
      CountNone(gone[1..]);
    }
  }

  /** Eviction fails to meet the budget exactly when the persistent blocks alone exceed it. */
  lemma {:induction false} EvictFailsIff(strategy: EvictionStrategy, maxTokens: nat, bs: Blocks)
    ensures Estimate(Evict(strategy, maxTokens, bs)) > maxTokens <==> Estimate(Persistent(bs)) > maxTokens
    decreases |bs|
  {
    PersistentWeight(bs);
    MarkupMonotone(Weight(Persistent(bs)), Weight(bs));
    if Estimate(bs) > maxTokens && Candidate(strategy, bs).Some? {
      var i := Candidate(strategy, bs).value;
      EvictFailsIff(strategy, maxTokens, RemoveAt(bs, i));
      RemoveKeepsPersistent(bs, i);
    }
  }

  // ---------------------------------------------------------------------
  // Which blocks go first
  // ---------------------------------------------------------------------

  /** The strategies that rank blocks. */
  ghost predicate RanksBy(strategy: EvictionStrategy, key: InputContentBlock -> real) {
    match strategy
    case Fifo => false
    case LargeBlockFirst => forall b :: key(b) == b.blockLength as real
    case Hybrid(score) => score == key
  }

  /** Block `i` goes before block `j`: it ranks higher, or the same and stands later. */
  predicate Before(key: InputContentBlock -> real, bs: Blocks, i: nat, j: nat)
    requires i < |bs| && j < |bs|
  {
    key(bs[i]) > key(bs[j]) || (key(bs[i]) == key(bs[j]) && i > j)
  }

  /** Every evicted block goes before every evictable block that is kept. */
  ghost predicate HighestGone(key: InputContentBlock -> real, bs: Blocks, gone: seq<bool>)
    requires |gone| == |bs|
  {
    forall i, j :: 0 <= i < |bs| && 0 <= j < |bs| && gone[i] && !gone[j] && !bs[j].isPersistent ==>
      Before(key, bs, i, j)
  }

  /** The last block to go: with it the budget is missed. */
  ghost predicate LastGone(key: InputContentBlock -> real, maxTokens: nat, bs: Blocks, gone: seq<bool>, i: nat)
    requires |gone| == |bs|
  {
    && i < |bs| && gone[i] && Estimate(Kept(bs, gone[i := false])) > maxTokens
    && forall j :: 0 <= j < |bs| && gone[j] && j != i ==> Before(key, bs, j, i)
  }

  function Shift(i: nat, x: nat): nat {
    if x < i then x else x + 1
  }

  lemma CandidateIsFirst(strategy: EvictionStrategy, key: InputContentBlock -> real, bs: Blocks, j: nat)
    requires RanksBy(strategy, key) && j < |bs| && !bs[j].isPersistent
    ensures var i := Candidate(strategy, bs); i.Some? && (i.value != j ==> Before(key, bs, i.value, j))
  {
    assert bs[j] in bs;
  }

  /** Where a block that stays stood before the removal, and that nothing else about it changes. */
  lemma OtherBlock(bs: Blocks, rest: seq<bool>, i: nat, a: nat) returns (x: nat)
    requires i < |bs| && |rest| == |bs| - 1 && a < |bs| && a != i
    ensures x < |rest| && Shift(i, x) == a && RemoveAt(bs, i)[x] == bs[a] && Inserted(rest, i)[a] == rest[x]
  {
    x := if a < i then a else a - 1;
  }

  lemma BeforeAfterRemoval(key: InputContentBlock -> real, bs: Blocks, i: nat, x: nat, y: nat)
    requires i < |bs| && x < |bs| - 1 && y < |bs| - 1
    ensures Before(key, RemoveAt(bs, i), x, y) == Before(key, bs, Shift(i, x), Shift(i, y))
  {
  }

  lemma HighestGoneOneMore(strategy: EvictionStrategy, key: InputContentBlock -> real, bs: Blocks, i: nat,
                           rest: seq<bool>)
    requires RanksBy(strategy, key) && Candidate(strategy, bs) == Some(i) && |rest| == |bs| - 1
    requires HighestGone(key, RemoveAt(bs, i), rest)
    ensures HighestGone(key, bs, Inserted(rest, i))
  {
    var gone := Inserted(rest, i);
    forall a, b | 0 <= a < |bs| && 0 <= b < |bs| && gone[a] && !gone[b] && !bs[b].isPersistent
      ensures Before(key, bs, a, b)
    {
      if a == i {
        CandidateIsFirst(strategy, key, bs, b);
      } else {
        var x := OtherBlock(bs, rest, i, a);
        var y := OtherBlock(bs, rest, i, b);
        BeforeAfterRemoval(key, bs, i, x, y);
      }
    }
  }

  lemma InsertedUpdate(rest: seq<bool>, i: nat, x: nat)
    requires i <= |rest| && x < |rest|
    ensures Inserted(rest, i)[Shift(i, x) := false] == Inserted(rest[x := false], i)
  {
    var a, b := Inserted(rest, i)[Shift(i, x) := false], Inserted(rest[x := false], i);
    forall k | 0 <= k < |a| ensures a[k] == b[k] {
    }
  }

  lemma KeptOneMore(bs: Blocks, i: nat, rest: seq<bool>, x: nat)
    requires i < |bs| && |rest| == |bs| - 1 && x < |rest|
    ensures Kept(bs, Inserted(rest, i)[Shift(i, x) := false]) == Kept(RemoveAt(bs, i), rest[x := false])
  {
    InsertMask(bs, i, rest[x := false]);
    InsertedUpdate(rest, i, x);
  }

  lemma LastGoneOneMore(strategy: EvictionStrategy, key: InputContentBlock -> real, maxTokens: nat, bs: Blocks,
                        i: nat, rest: seq<bool>, x: nat)
    requires RanksBy(strategy, key) && Candidate(strategy, bs) == Some(i) && |rest| == |bs| - 1
    requires Evictable(RemoveAt(bs, i), rest) && LastGone(key, maxTokens, RemoveAt(bs, i), rest, x)
    ensures LastGone(key, maxTokens, bs, Inserted(rest, i), Shift(i, x))
  {
    KeptOneMore(bs, i, rest, x);
    forall j | 0 <= j < |bs| && Inserted(rest, i)[j] && j != Shift(i, x) ensures Before(key, bs, j, Shift(i, x)) {
      if j == i {
        CandidateIsFirst(strategy, key, bs, Shift(i, x));
      } else {
        var y := OtherBlock(bs, rest, i, j);
        BeforeAfterRemoval(key, bs, i, y, x);
      }
    }
  }

  /**
   Largest first and hybrid evict the highest-ranking blocks, the later ones
   first among equals, and stop as soon as the rest fits.
   */
  lemma {:induction false} RankingEvictsHighest(strategy: EvictionStrategy, key: InputContentBlock -> real,
                                                maxTokens: nat, bs: Blocks) returns (gone: seq<bool>)
    requires RanksBy(strategy, key)
    ensures Evictable(bs, gone) && Evict(strategy, maxTokens, bs) == Kept(bs, gone) && HighestGone(key, bs, gone)
    ensures Count(gone) > 0 ==> exists i: nat :: LastGone(key, maxTokens, bs, gone, i)
    decreases |bs|
  {
    if Estimate(bs) > maxTokens && Candidate(strategy, bs).Some? {
      var i := Candidate(strategy, bs).value;
      var rest := RankingEvictsHighest(strategy, key, maxTokens, RemoveAt(bs, i));
      gone := Inserted(rest, i);
      InsertMask(bs, i, rest);
      InsertEvictable(bs, i, rest);
      HighestGoneOneMore(strategy, key, bs, i, rest);
      if Count(rest) > 0 {
        var x: nat :| LastGone(key, maxTokens, RemoveAt(bs, i), rest, x);
        LastGoneOneMore(strategy, key, maxTokens, bs, i, rest, x);
      } else {
        OnlyOneGone(key, maxTokens, bs, i, rest);
      }
    } else {
      gone := seq(|bs|, i => false);
      NothingGone(bs, gone);
      CountNone(gone);
    }
  }

  lemma OnlyOneGone(key: InputContentBlock -> real, maxTokens: nat, bs: Blocks, i: nat, rest: seq<bool>)
    requires i < |bs| && |rest| == |bs| - 1 && Count(rest) == 0 && Estimate(bs) > maxTokens
    ensures LastGone(key, maxTokens, bs, Inserted(rest, i), i)
  {
    NothingGone(RemoveAt(bs, i), rest);
    var none := Inserted(rest, i)[i := false];
    CountNone(none);
    NothingGone(bs, none);
  }

  // ---------------------------------------------------------------------
  // The whole optimisation
  // ---------------------------------------------------------------------

  datatype Outcome = Outcome(result: Result<PruningReport, ContextError>, blocks: Blocks)

  /** The subtraction the report makes; it never falls below zero, see `OptimizeContract`. */
  function Saved(before: nat, after: nat): nat {
    if after <= before then before - after else 0
  }

  function Optimized(strategy: EvictionStrategy, maxTokens: nat, bs: Blocks): Outcome {
    if Estimate(bs) <= maxTokens then Outcome(Ok(NoChange), Hydrate(bs))
    else
      var prepared := Prepared(maxTokens, bs);
      var left := Evict(strategy, maxTokens, prepared);
      if Estimate(left) > maxTokens then Outcome(Err(SystemPromptTooLarge), left)
      else Outcome(Ok(Pruned(Saved(Estimate(bs), Estimate(left)), Saved(|bs|, |left|))), left)
  }

  lemma TruncateShrinks(maxTokens: nat, b: InputContentBlock)
    ensures EstimateBlock(TruncateBlock(maxTokens, HydrateBlock(b))) <= EstimateBlock(b)
    ensures Hydrated([TruncateBlock(maxTokens, HydrateBlock(b))])
    ensures TruncateBlock(maxTokens, b).isPersistent == b.isPersistent
  {
  }

  lemma TruncateTwice(maxTokens: nat, b: InputContentBlock)
    requires b.blockLength == EstimateBlock(b)
    ensures TruncateBlock(maxTokens, TruncateBlock(maxTokens, b)) == TruncateBlock(maxTokens, b)
  {
  }

  lemma {:induction false} WeightMap(f: InputContentBlock -> InputContentBlock, bs: Blocks)
    requires forall b <- bs :: EstimateBlock(f(b)) <= EstimateBlock(b)
    ensures Weight(Map(f, bs)) <= Weight(bs)
    ensures (forall b <- bs :: EstimateBlock(f(b)) == EstimateBlock(b)) ==> Weight(Map(f, bs)) == Weight(bs)
  {
    if bs != [] {
      assert Map(f, bs)[1..] == Map(f, bs[1..]);
      assert bs[0] in bs;
      WeightMap(f, bs[1..]);
    }
  }

  lemma PreparedSettles(maxTokens: nat, bs: Blocks)
    ensures Hydrated(Prepared(maxTokens, bs))
    ensures Truncate(maxTokens, Prepared(maxTokens, bs)) == Prepared(maxTokens, bs)
  {
    var h, t := Hydrate(bs), Prepared(maxTokens, bs);
    forall i | 0 <= i < |bs|
      ensures t[i].blockLength == EstimateBlock(t[i]) && TruncateBlock(maxTokens, t[i]) == t[i]
    {
      TruncateShrinks(maxTokens, bs[i]);
      TruncateTwice(maxTokens, h[i]);
    }
  }

  lemma PreparedIsLighter(maxTokens: nat, bs: Blocks)
    ensures Hydrated(Prepared(maxTokens, bs)) && |Prepared(maxTokens, bs)| == |bs|
    ensures Weight(Prepared(maxTokens, bs)) <= Weight(bs) && Weight(Hydrate(bs)) == Weight(bs)
    ensures Truncate(maxTokens, Prepared(maxTokens, bs)) == Prepared(maxTokens, bs)
  {
    var h := Hydrate(bs);
    WeightMap(HydrateBlock, bs);
    PreparedSettles(maxTokens, bs);
    forall b <- h ensures EstimateBlock(TruncateBlock(maxTokens, b)) <= EstimateBlock(b) {
      var i :| 0 <= i < |h| && h[i] == b;
      TruncateShrinks(maxTokens, bs[i]);
    }
    WeightMap((b: InputContentBlock) => TruncateBlock(maxTokens, b), h);
  }

  /**
   Before anything is evicted, a tool result estimated at more than half the
   window is cut to fit half the window if the notice fits there: its longest
   prefix that leaves room for the notice, and the notice. Every other block keeps
   its content, and no block changes in any other way.
   */
  lemma TruncationFits(maxTokens: nat, bs: Blocks, i: nat)
    requires i < |bs|
    ensures var b, t, half := bs[i], Prepared(maxTokens, bs)[i], maxTokens / 2;
            && (t.blockType, t.isPersistent, t.importanceScore) == (b.blockType, b.isPersistent, b.importanceScore)
            && t.blockLength == EstimateBlock(t)
            && if b.blockType == ToolResult && EstimateBlock(b) > half && 4 * half > 33
               then
                 && EstimateBlock(t) <= half && |b.content| > 4 * half == |t.content|
                 && t.content == b.content[..4 * half - 33] + NOTICE
               else t.content == b.content
  {
    var b, half := bs[i], maxTokens / 2;
    assert |NOTICE| == 33;
    assert Prepared(maxTokens, bs)[i] == TruncateBlock(maxTokens, HydrateBlock(b));
    if EstimateBlock(b) > half {
      EstimatesRoundUp(b, 0);
    }
  }

  lemma OneBlockEstimate(b: InputContentBlock)
    ensures Estimate([b]) == Markup(EstimateBlock(b))
  {
    assert [b][1..] == [];
    assert Weight([b]) == EstimateBlock(b);
  }

  /** A long tool result is shortened, not evicted. */
  lemma TruncationSpares(strategy: EvictionStrategy, content: string)
    requires |content| == 1000
    ensures var b := InputContentBlock(ToolResult, content, false, 0.5, 0);
            var o := Optimized(strategy, 100, [b]);
            o.result == Ok(Pruned(230, 0)) && |o.blocks| == 1 && o.blocks[0].content == content[..167] + NOTICE
  {
    var b := InputContentBlock(ToolResult, content, false, 0.5, 0);
    var t := b.(content := content[..167] + NOTICE, blockLength := 50);
    assert |NOTICE| == 33 && TruncateBlock(100, HydrateBlock(b)) == t;
    assert Prepared(100, [b]) == [t];
    assert EstimateBlock(b) == 250 && EstimateBlock(t) == 50 && Markup(250) == 288 && Markup(50) == 58;
    OneBlockEstimate(b);
    OneBlockEstimate(t);
    assert Evict(strategy, 100, [t]) == [t];
  }

  lemma {:induction false} KeptMembers(bs: Blocks, gone: seq<bool>)
    requires |gone| == |bs|
    ensures forall b <- Kept(bs, gone) :: b in bs
  {
    if bs != [] {
      KeptMembers(bs[1..], gone[1..]);
    }
  }

  ghost predicate WithoutEvictable(prepared: Blocks, left: Blocks) {
    exists gone :: Evictable(prepared, gone) && left == Kept(prepared, gone)
  }

  /** What every caller of `optimize` gets, for all three strategies. */
  ghost predicate Contract(maxTokens: nat, bs: Blocks, o: Outcome) {
    var prepared := Prepared(maxTokens, bs);
    && (o.result.Err? <==> Estimate(Persistent(prepared)) > maxTokens)
    && (o.result.Err? ==> o.result == Err(SystemPromptTooLarge) && o.blocks == Persistent(prepared))
    && (o.result.Ok? ==> Estimate(o.blocks) <= maxTokens)
    && (o.result == Ok(NoChange) <==> Estimate(bs) <= maxTokens)
    && (o.result == Ok(NoChange) ==> o.blocks == Hydrate(bs))
    && (o.result.Ok? && o.result.value.Pruned? ==>
          && WithoutEvictable(prepared, o.blocks) && Persistent(o.blocks) == Persistent(prepared)
          && o.result.value.tokensRemoved + Estimate(o.blocks) == Estimate(bs)
          && o.result.value.blocksEvicted + |o.blocks| == |bs|)
  }

  lemma OptimizeContract(strategy: EvictionStrategy, maxTokens: nat, bs: Blocks)
    ensures Contract(maxTokens, bs, Optimized(strategy, maxTokens, bs))
  {
    var prepared := Prepared(maxTokens, bs);
    PreparedIsLighter(maxTokens, bs);
    PersistentWeight(prepared);
    MarkupMonotone(Weight(Persistent(prepared)), Weight(bs));
    EvictFailsIff(strategy, maxTokens, prepared);
    var left := Evict(strategy, maxTokens, prepared);
    var gone := EvictRemovesEvictable(strategy, maxTokens, prepared);
    KeptKeepsPersistent(prepared, gone);
    MarkupMonotone(Weight(left), Weight(bs));
    KeptLength(prepared, gone);
    assert WithoutEvictable(prepared, left);
    if Estimate(left) > maxTokens {
      EvictStopsAtPersistent(strategy, maxTokens, prepared);
    }
  }

  lemma {:induction false} EvictStopsAtPersistent(strategy: EvictionStrategy, maxTokens: nat, bs: Blocks)
    requires Estimate(Evict(strategy, maxTokens, bs)) > maxTokens
    ensures Evict(strategy, maxTokens, bs) == Persistent(bs)
    decreases |bs|
  {
    match Candidate(strategy, bs)
    case Some(i) =>
      EvictStopsAtPersistent(strategy, maxTokens, RemoveAt(bs, i));
      RemoveKeepsPersistent(bs, i);
    case None =>
      PersistentWeight(bs);
  }

  lemma {:induction false} PersistentMembers(bs: Blocks)
    ensures forall b <- Persistent(bs) :: b in bs && b.isPersistent
  {
    if bs != [] {
      PersistentMembers(bs[1..]);
    }
  }

  lemma SettledBlocks(maxTokens: nat, prepared: Blocks, left: Blocks)
    requires Hydrated(prepared) && Truncate(maxTokens, prepared) == prepared && forall b <- left :: b in prepared
    ensures Hydrate(left) == left && Prepared(maxTokens, left) == left
  {
    forall b <- left ensures HydrateBlock(b) == b && TruncateBlock(maxTokens, b) == b {
      var i :| 0 <= i < |prepared| && prepared[i] == b;
      assert Truncate(maxTokens, prepared)[i] == TruncateBlock(maxTokens, b);
    }
    assert Hydrate(left) == left;
    assert Truncate(maxTokens, left) == left;
  }

  /** A second run changes nothing: it reports no change after success, and fails the same way after failure. */
  lemma SecondRunSettles(strategy: EvictionStrategy, maxTokens: nat, bs: Blocks)
    ensures var o := Optimized(strategy, maxTokens, bs);
            Optimized(strategy, maxTokens, o.blocks) == if o.result.Ok? then Outcome(Ok(NoChange), o.blocks) else o
  {
    var o := Optimized(strategy, maxTokens, bs);
    var prepared := Prepared(maxTokens, bs);
    PreparedIsLighter(maxTokens, bs);
    OptimizeContract(strategy, maxTokens, bs);
    if o.result == Ok(NoChange) {
      assert Hydrate(Hydrate(bs)) == Hydrate(bs);
    } else {
      var gone := EvictRemovesEvictable(strategy, maxTokens, prepared);
      KeptMembers(prepared, gone);
      SettledBlocks(maxTokens, prepared, o.blocks);
      if o.result.Err? {
        AllPersistentStays(strategy, maxTokens, prepared);
      }
    }
  }

  lemma AllPersistentStays(strategy: EvictionStrategy, maxTokens: nat, prepared: Blocks)
    ensures Evict(strategy, maxTokens, Persistent(prepared)) == Persistent(prepared)
  {
    PersistentMembers(prepared);
  }

  lemma HydrateKeepsEstimate(bs: Blocks)
    ensures Estimate(Hydrate(bs)) == Estimate(bs)
  {
    WeightMap(HydrateBlock, bs);
  }

  /** The report's two differences, computed without a guard, are those of the specification. */
  lemma ReportIsExact(strategy: EvictionStrategy, maxTokens: nat, bs: Blocks, left: Blocks, current: nat, evicted: nat)
    requires Estimate(bs) > maxTokens && left == Evict(strategy, maxTokens, Prepared(maxTokens, bs))
    requires current == Estimate(left) && evicted + |left| == |Prepared(maxTokens, bs)|
    ensures current <= Estimate(bs)
    ensures Optimized(strategy, maxTokens, bs)
         == Outcome(if current <= maxTokens then Ok(Pruned(Estimate(bs) - current, evicted))
                    else Err(SystemPromptTooLarge), left)
  {
    PreparedIsLighter(maxTokens, bs);
    var prepared := Prepared(maxTokens, bs);
    var gone := EvictRemovesEvictable(strategy, maxTokens, prepared);
    KeptKeepsPersistent(prepared, gone);
    MarkupMonotone(Weight(left), Weight(bs));
  }

  // ---------------------------------------------------------------------
  // The code
  // ---------------------------------------------------------------------

  class SwarmSession {
    var blocks: Blocks

    constructor (blocks: Blocks)
      ensures this.blocks == blocks
    {
      this.blocks := blocks;
    }
  }

  class ContextRouter {
    const maxTokens: nat
    const strategy: EvictionStrategy

    constructor (maxTokens: nat, strategy: EvictionStrategy)
      ensures this.maxTokens == maxTokens && this.strategy == strategy
    {
      this.maxTokens, this.strategy := maxTokens, strategy;
    }

    method HydrateAll(session: SwarmSession)
      modifies session
      ensures session.blocks == Hydrate(old(session.blocks))
    {
      for i := 0 to |session.blocks|
        invariant session.blocks == Hydrate(old(session.blocks)[..i]) + old(session.blocks)[i..]
      {
        session.blocks := session.blocks[i := HydrateBlock(session.blocks[i])];
      }
    }

    method TruncateAll(session: SwarmSession)
      modifies session
      ensures session.blocks == Truncate(maxTokens, old(session.blocks))
    {
      for i := 0 to |session.blocks|
        invariant session.blocks == Truncate(maxTokens, old(session.blocks)[..i]) + old(session.blocks)[i..]
      {
        session.blocks := session.blocks[i := TruncateBlock(maxTokens, session.blocks[i])];
      }
    }

    /** The eviction loop: says how many blocks it evicted, or that it found no candidate in time. */
    method EvictUntilFits(session: SwarmSession) returns (fits: bool, evicted: nat, current: nat)
      modifies session
      ensures session.blocks == Evict(strategy, maxTokens, old(session.blocks))
      ensures current == Estimate(session.blocks) && (fits <==> current <= maxTokens)
      ensures evicted + |session.blocks| == |old(session.blocks)|
    {
      ghost var prepared := session.blocks;
      evicted := 0;
      current := EstimateTokens(session.blocks);
      while current > maxTokens
        invariant current == Estimate(session.blocks) && evicted + |session.blocks| == |prepared|
        invariant Evict(strategy, maxTokens, session.blocks) == Evict(strategy, maxTokens, prepared)
        decreases |session.blocks|
      {
        match Candidate(strategy, session.blocks)
        case Some(i) =>
          session.blocks := RemoveAt(session.blocks, i);
          evicted := evicted + 1;
          current := EstimateTokens(session.blocks);
        case None =>
          return false, evicted, current;
      }
      fits := true;
    }

    /** What remains to be done when the hydrated session is over budget. */
    method Shrink(session: SwarmSession, initial: nat, ghost bs: Blocks)
      returns (r: Result<PruningReport, ContextError>)
      requires session.blocks == Hydrate(bs) && initial == Estimate(bs) > maxTokens
      modifies session
      ensures Outcome(r, session.blocks) == Optimized(strategy, maxTokens, bs)
    {
      TruncateAll(session);
      assert session.blocks == Prepared(maxTokens, bs);
      var fits, evicted, current := EvictUntilFits(session);
      ReportIsExact(strategy, maxTokens, bs, session.blocks, current, evicted);
      r := if fits then Ok(Pruned(initial - current, evicted)) else Err(SystemPromptTooLarge);
    }

    method Optimize(session: SwarmSession) returns (r: Result<PruningReport, ContextError>)
      modifies session
      ensures Outcome(r, session.blocks) == Optimized(strategy, maxTokens, old(session.blocks))
    {
      ghost var bs := session.blocks;
      HydrateAll(session);
      HydrateKeepsEstimate(bs);
      var initial := EstimateTokens(session.blocks);
      if initial <= maxTokens {
        return Ok(NoChange);
      }
      r := Shrink(session, initial, bs);
    }
  }
}
