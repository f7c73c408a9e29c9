/**
 What a layered vector store shows to a similarity query (src/memory.rs).

 A store is read as a stack of layers, newest first. A layer hides ids with
 tombstones and holds, for each collection, a keyed buffer (tier 1) and an
 append-only list with an optional index (tier 2).
 */
module VectorRecall {
  import opened Words
  import opened Wrappers

  type Vector = seq<real>

  datatype VectorRecord = VectorRecord(id: string, vector: Vector, metadata: map<string, string>)

  /** Tier 2: `points[i]` is the indexed vector of `records[i]`. */
  datatype Tier2Data = Tier2Data(records: seq<VectorRecord>, points: seq<Vector>, indexed: bool)

  datatype VectorCollection = VectorCollection(tier1: map<string, VectorRecord>, tier2: Tier2Data)

  datatype Layer = Layer(tombstones: set<string>, collections: map<string, VectorCollection>)

  /** `similarity` stands for cosine similarity against the query's own vector. */
  datatype SearchQuery = SearchQuery(collection: string, similarity: Vector -> real, limit: u32, minScore: real)

  datatype SearchResult = SearchResult(id: string, score: real, metadata: map<string, string>)

  /** One answer of the approximate index: an id and one minus its distance. */
  datatype IndexHit = IndexHit(id: string, score: real)

  datatype Scored = Scored(score: real, record: VectorRecord)

  const EMPTY_TIER2 := Tier2Data([], [], false)
  const EMPTY_COLLECTION := VectorCollection(map[], EMPTY_TIER2)
  const EMPTY_LAYER := Layer({}, map[])

  function CollectionOf(l: Layer, name: string): VectorCollection {
    if name in l.collections then l.collections[name] else EMPTY_COLLECTION
  }

  /** Tier 1 is keyed by the id inside the record. */
  ghost predicate KeyedById(tier1: map<string, VectorRecord>) {
    forall id <- tier1 :: tier1[id].id == id
  }

  ghost predicate StackKeyed(st: seq<Layer>) {
    forall l <- st, name <- l.collections :: KeyedById(l.collections[name].tier1)
  }

  // ---------------------------------------------------------------------
  // What one query sees of one layer
  // ---------------------------------------------------------------------

  function ScoreOf(q: SearchQuery, r: VectorRecord): Scored {
    Scored(q.similarity(r.vector), r)
  }

  predicate Passes(q: SearchQuery, s: Scored) {
    s.score >= q.minScore
  }

  /** The record a lookup by id finds: the first one. */
  function FirstWithId(records: seq<VectorRecord>, id: string): Option<VectorRecord> {
    if records == [] then None
    else if records[0].id == id then Some(records[0])
    else FirstWithId(records[1..], id)
  }

  function ScanCandidates(q: SearchQuery, records: seq<VectorRecord>): seq<Scored> {
    seq(|records|, i requires 0 <= i < |records| => ScoreOf(q, records[i]))
  }

  function IndexCandidates(records: seq<VectorRecord>, hits: seq<IndexHit>): seq<Scored> {
    if hits == [] then []
    else
      match FirstWithId(records, hits[0].id)
      case Some(r) => [Scored(hits[0].score, r)] + IndexCandidates(records, hits[1..])
      case None => IndexCandidates(records, hits[1..])
  }

  /** `query.limit * 5` in 32-bit arithmetic, as a release build computes it. */
  function FetchCount(limit: u32): nat {
    (limit * 5) % 0x1_0000_0000
  }

  function Fetched(q: SearchQuery, hits: seq<IndexHit>): seq<IndexHit> {
    if |hits| <= FetchCount(q.limit) then hits else hits[..FetchCount(q.limit)]
  }

  function Tier2Candidates(q: SearchQuery, t2: Tier2Data, hits: seq<IndexHit>): seq<Scored> {
    if t2.indexed then IndexCandidates(t2.records, Fetched(q, hits)) else ScanCandidates(q, t2.records)
  }

  datatype Probe = Probe(tombstones: set<string>, tier1: map<string, VectorRecord>, tier2: seq<Scored>)

  function ProbeLayer(q: SearchQuery, l: Layer, hits: seq<IndexHit>): Probe {
    var col := CollectionOf(l, q.collection);
    Probe(l.tombstones, col.tier1, Tier2Candidates(q, col.tier2, hits))
  }

  /** `answers[i]` is whatever the index of layer `i` answers to this query. */
  function ProbeStack(q: SearchQuery, st: seq<Layer>, answers: seq<seq<IndexHit>>): seq<Probe>
    requires |answers| == |st|
  {
    seq(|st|, i requires 0 <= i < |st| => ProbeLayer(q, st[i], answers[i]))
  }

  ghost predicate ProbesKeyed(ps: seq<Probe>) {
    forall p <- ps :: KeyedById(p.tier1)
  }

  // ---------------------------------------------------------------------
  // The version of an id that a query returns
  // ---------------------------------------------------------------------

  function WithId(vs: seq<Scored>, id: string): seq<Scored> {
    if vs == [] then []
    else (if vs[0].record.id == id then [vs[0]] else []) + WithId(vs[1..], id)
  }

  /** The versions of `id` in one layer, tier 1 before tier 2. */
  function Versions(q: SearchQuery, p: Probe, id: string): seq<Scored> {
    (if id in p.tier1 then [ScoreOf(q, p.tier1[id])] else []) + WithId(p.tier2, id)
  }

  /** The versions of `id` that no tombstone of the same or a newer layer hides, newest first. */
  function Visible(q: SearchQuery, ps: seq<Probe>, id: string): seq<Scored> {
    if ps == [] || id in ps[0].tombstones then []
    else Versions(q, ps[0], id) + Visible(q, ps[1..], id)
  }

  function FirstPassing(q: SearchQuery, vs: seq<Scored>): Option<Scored> {
    if vs == [] then None
    else if Passes(q, vs[0]) then Some(vs[0])
    else FirstPassing(q, vs[1..])
  }

  function Winner(q: SearchQuery, ps: seq<Probe>, id: string): Option<Scored> {
    FirstPassing(q, Visible(q, ps, id))
  }

  function ResultOf(s: Scored): SearchResult {
    SearchResult(s.record.id, s.score, s.record.metadata)
  }

  ghost function ResultIds(out: seq<SearchResult>): set<string> {
    set r <- out :: r.id
  }

  /**
   `out` is a legal answer: the winners of distinct ids, best first, at most
   `limit` of them, and no winner outside `out` beats one inside.
   */
  ghost predicate IsTop(q: SearchQuery, ps: seq<Probe>, out: seq<SearchResult>) {
    && |out| <= q.limit
    && (forall i :: 0 <= i < |out| ==>
          Winner(q, ps, out[i].id).Some? && out[i] == ResultOf(Winner(q, ps, out[i].id).value))
    && (forall i, j :: 0 <= i < j < |out| ==> out[i].id != out[j].id)
    && (forall i, j :: 0 <= i < j < |out| ==> out[i].score >= out[j].score)
    && (forall id :: Winner(q, ps, id).Some? && id !in ResultIds(out) ==>
          |out| == q.limit && forall r <- out :: r.score >= Winner(q, ps, id).value.score)
  }

  // ---------------------------------------------------------------------
  // Sequence facts
  // ---------------------------------------------------------------------

  lemma {:induction false} FirstPassingConcat(q: SearchQuery, a: seq<Scored>, b: seq<Scored>)
    ensures FirstPassing(q, a + b)
         == if FirstPassing(q, a).Some? then FirstPassing(q, a) else FirstPassing(q, b)
  {
    if a == [] {
      assert a + b == b;
    } else {
      TailOfConcat(a, b);
      FirstPassingConcat(q, a[1..], b);
    }
  }

  lemma {:induction false} WithIdConcat(a: seq<Scored>, b: seq<Scored>, id: string)
    ensures WithId(a + b, id) == WithId(a, id) + WithId(b, id)
  {
    if a == [] {
      assert a + b == b;
    } else {
      TailOfConcat(a, b);
      WithIdConcat(a[1..], b, id);
      ConcatAssociates(if a[0].record.id == id then [a[0]] else [], WithId(a[1..], id), WithId(b, id));
    }
  }

  lemma {:induction false} WithIdKeepsId(vs: seq<Scored>, id: string)
    ensures forall s <- WithId(vs, id) :: s.record.id == id && s in vs
  {
    if vs != [] {
      WithIdKeepsId(vs[1..], id);
    }
  }

  lemma {:induction false} FirstPassingIn(q: SearchQuery, vs: seq<Scored>)
    ensures FirstPassing(q, vs).Some? ==> FirstPassing(q, vs).value in vs && Passes(q, FirstPassing(q, vs).value)
    ensures FirstPassing(q, vs).None? <==> forall s <- vs :: !Passes(q, s)
  {
    if vs != [] {
      FirstPassingIn(q, vs[1..]);
      assert forall s <- vs :: s == vs[0] || s in vs[1..];
    }
  }

  ghost function Tombstones(ps: seq<Probe>): set<string> {
    set p <- ps, id <- p.tombstones :: id
  }

  lemma TombstonesSnoc(ps: seq<Probe>, p: Probe)
    ensures Tombstones(ps + [p]) == Tombstones(ps) + p.tombstones
  {
    forall id | id in Tombstones(ps) + p.tombstones ensures id in Tombstones(ps + [p]) {
      if id in Tombstones(ps) {
        var x :| x in ps && id in x.tombstones;
        assert x in ps + [p];
      } else {
        assert p in ps + [p];
      }
    }
  }

  lemma {:induction false} VisibleSnoc(q: SearchQuery, ps: seq<Probe>, p: Probe, id: string)
    ensures Visible(q, ps + [p], id)
         == Visible(q, ps, id)
          + (if id in Tombstones(ps) || id in p.tombstones then [] else Versions(q, p, id))
  {
    if ps == [] {
      assert ps + [p] == [p];
      assert Visible(q, [p][1..], id) == [];
    } else {
      var rest := ps[1..];
      assert (ps + [p])[1..] == rest + [p];
      assert Tombstones(ps) == ps[0].tombstones + Tombstones(rest) by {
        assert forall x :: x in ps <==> x == ps[0] || x in rest;
      }
      VisibleSnoc(q, rest, p, id);
    }
  }

  lemma {:induction false} VisibleIds(q: SearchQuery, ps: seq<Probe>, id: string)
    requires ProbesKeyed(ps)
    ensures forall s <- Visible(q, ps, id) :: s.record.id == id
  {
    if ps != [] && id !in ps[0].tombstones {
      WithIdKeepsId(ps[0].tier2, id);
      VisibleIds(q, ps[1..], id);
    }
  }

  /** Layer `k` is the newest with a version of `id` that passes, `s` is its first, and nothing hides it. */
  ghost predicate WonAt(q: SearchQuery, ps: seq<Probe>, id: string, k: nat, s: Scored) {
    && k < |ps| && FirstPassing(q, Versions(q, ps[k], id)) == Some(s)
    && (forall j :: 0 <= j <= k ==> id !in ps[j].tombstones)
    && (forall j :: 0 <= j < k ==> FirstPassing(q, Versions(q, ps[j], id)).None?)
  }

  /** A layer that deletes nothing and offers nothing passing leaves the question to the layers below. */
  lemma WonBelow(q: SearchQuery, ps: seq<Probe>, id: string, k: nat, s: Scored)
    requires ps != [] && id !in ps[0].tombstones && FirstPassing(q, Versions(q, ps[0], id)).None?
    ensures WonAt(q, ps, id, k + 1, s) <==> WonAt(q, ps[1..], id, k, s)
  {
    if k < |ps| - 1 {
      assert ps[1..][k] == ps[k + 1];
      assert forall j :: 0 < j <= k + 1 ==> ps[j] == ps[1..][j - 1];
      assert forall j :: 0 <= j <= k ==> ps[1..][j] == ps[j + 1];
    }
  }

  /**
   An id is returned by `s` exactly when `s` is the first passing version in the
   newest layer that has one, and neither that layer nor a newer one deletes the id.
   */
  lemma {:induction false} WinnerIff(q: SearchQuery, ps: seq<Probe>, id: string, s: Scored)
    ensures Winner(q, ps, id) == Some(s) <==> exists k: nat :: WonAt(q, ps, id, k, s)
  {
    if ps != [] && id !in ps[0].tombstones {
      FirstPassingConcat(q, Versions(q, ps[0], id), Visible(q, ps[1..], id));
      if FirstPassing(q, Versions(q, ps[0], id)).None? {
        WinnerIff(q, ps[1..], id, s);
        if Winner(q, ps, id) == Some(s) {
          var k: nat :| WonAt(q, ps[1..], id, k, s);
          WonBelow(q, ps, id, k, s);
        }
        forall k: nat | WonAt(q, ps, id, k, s) ensures WonAt(q, ps[1..], id, k - 1, s) {
          WonBelow(q, ps, id, k - 1, s);
        }
      } else {
        assert WonAt(q, ps, id, 0, FirstPassing(q, Versions(q, ps[0], id)).value);
      }
    }
  }

  /**
   The version an id is returned by is stored under that id in some layer,
   passes the minimum score, and is hidden by no tombstone of its own or a newer layer.
   */
  lemma WinnerIsSound(q: SearchQuery, ps: seq<Probe>, id: string) returns (k: nat)
    requires ProbesKeyed(ps) && Winner(q, ps, id).Some?
    ensures WonAt(q, ps, id, k, Winner(q, ps, id).value)
    ensures Winner(q, ps, id).value in Versions(q, ps[k], id) && Winner(q, ps, id).value.record.id == id
    ensures Passes(q, Winner(q, ps, id).value)
  {
    var s := Winner(q, ps, id).value;
    WinnerIff(q, ps, id, s);
    k :| WonAt(q, ps, id, k, s);
    FirstPassingIn(q, Versions(q, ps[k], id));
    VisibleIds(q, ps, id);
    FirstPassingIn(q, Visible(q, ps, id));
  }

  // ---------------------------------------------------------------------
  // The recall loop
  // ---------------------------------------------------------------------

  ghost function OutIds(out: seq<Scored>): set<string> {
    set s <- out :: s.record.id
  }

  /** `out` holds exactly the winners of `ps`, and `seen` the ids that need no further look. */
  ghost predicate Gathered(q: SearchQuery, ps: seq<Probe>, seen: set<string>, out: seq<Scored>) {
    && (forall i :: 0 <= i < |out| ==> Winner(q, ps, out[i].record.id) == Some(out[i]))
    && DistinctIds(out)
    && (forall id :: Winner(q, ps, id).Some? ==> id in OutIds(out))
    && seen == Tombstones(ps) + OutIds(out)
  }

  /** `next` is `p` with one more version, `s`, at the end of what it has for that id. */
  ghost predicate OneMore(q: SearchQuery, p: Probe, next: Probe, s: Scored) {
    && next.tombstones == p.tombstones
    && forall id :: Versions(q, next, id) == Versions(q, p, id) + (if id == s.record.id then [s] else [])
  }

  lemma WinnerStep(q: SearchQuery, ps: seq<Probe>, p: Probe, next: Probe, s: Scored, id: string)
    requires OneMore(q, p, next, s)
    ensures Winner(q, ps + [next], id)
         == if Winner(q, ps + [p], id).None? && id == s.record.id && id !in Tombstones(ps + [p]) && Passes(q, s)
            then Some(s) else Winner(q, ps + [p], id)
  {
    VisibleSnoc(q, ps, p, id);
    VisibleSnoc(q, ps, next, id);
    TombstonesSnoc(ps, p);
    var before := Visible(q, ps + [p], id);
    if id == s.record.id && id !in Tombstones(ps + [p]) {
      assert Visible(q, ps + [next], id) == before + [s];
      FirstPassingConcat(q, before, [s]);
    } else {
      assert Visible(q, ps + [next], id) == before;
    }
  }

  lemma GatherStep(q: SearchQuery, ps: seq<Probe>, p: Probe, next: Probe, s: Scored,
                   seen: set<string>, out: seq<Scored>, seen': set<string>, out': seq<Scored>)
    requires OneMore(q, p, next, s)
    requires Gathered(q, ps + [p], seen, out)
    requires if s.record.id !in seen && Passes(q, s)
             then seen' == seen + {s.record.id} && out' == out + [s]
             else seen' == seen && out' == out
    ensures Gathered(q, ps + [next], seen', out')
  {
    TombstonesSnoc(ps, p);
    TombstonesSnoc(ps, next);
    forall id ensures Winner(q, ps + [next], id)
                   == if id == s.record.id && id !in seen && Passes(q, s) then Some(s) else Winner(q, ps + [p], id)
    {
      WinnerStep(q, ps, p, next, s, id);
      if id in OutIds(out) {
        var i :| 0 <= i < |out| && out[i].record.id == id;
      }
    }
    assert forall x :: x in out + [s] <==> x in out || x == s;
  }

  lemma EmptyProbeGathers(q: SearchQuery, ps: seq<Probe>, tombstones: set<string>, seen: set<string>, out: seq<Scored>)
    requires Gathered(q, ps, seen, out)
    ensures Gathered(q, ps + [Probe(tombstones, map[], [])], seen + tombstones, out)
  {
    var p := Probe(tombstones, map[], []);
    TombstonesSnoc(ps, p);
    forall id ensures Winner(q, ps + [p], id) == Winner(q, ps, id) {
      VisibleSnoc(q, ps, p, id);
      assert Visible(q, ps, id) + [] == Visible(q, ps, id);
    }
  }

  lemma OneMoreInTier1(q: SearchQuery, tombstones: set<string>, done: map<string, VectorRecord>, r: VectorRecord)
    requires r.id !in done
    ensures OneMore(q, Probe(tombstones, done, []), Probe(tombstones, done[r.id := r], []), ScoreOf(q, r))
  {
  }

  lemma OneMoreInTier2(q: SearchQuery, tombstones: set<string>, tier1: map<string, VectorRecord>,
                       candidates: seq<Scored>, i: nat)
    requires i < |candidates|
    ensures OneMore(q, Probe(tombstones, tier1, candidates[..i]), Probe(tombstones, tier1, candidates[..i + 1]),
                    candidates[i])
  {
    var s := candidates[i];
    assert candidates[..i + 1] == candidates[..i] + [s];
    forall id ensures Versions(q, Probe(tombstones, tier1, candidates[..i + 1]), id)
                   == Versions(q, Probe(tombstones, tier1, candidates[..i]), id)
                    + (if id == s.record.id then [s] else [])
    {
      WithIdConcat(candidates[..i], [s], id);
      assert WithId([s], id) == (if id == s.record.id then [s] else []);
    }
  }

  method ScanTier1Record(q: SearchQuery, r: VectorRecord, seen0: set<string>, out0: seq<Scored>,
                         ghost ps: seq<Probe>, ghost tombstones: set<string>, ghost done: map<string, VectorRecord>)
    returns (seen: set<string>, out: seq<Scored>)
    requires r.id !in done
    requires Gathered(q, ps + [Probe(tombstones, done, [])], seen0, out0)
    ensures Gathered(q, ps + [Probe(tombstones, done[r.id := r], [])], seen, out)
  {
    seen, out := seen0, out0;
    var s := ScoreOf(q, r);
    if r.id !in seen && Passes(q, s) {
      out := out + [s];
      seen := seen + {r.id};
    }
    OneMoreInTier1(q, tombstones, done, r);
    GatherStep(q, ps, Probe(tombstones, done, []), Probe(tombstones, done[r.id := r], []), s, seen0, out0, seen, out);
  }

  /** Scans a tier-1 buffer in whatever order the hash map yields it. */
  method ScanTier1(q: SearchQuery, tier1: map<string, VectorRecord>, seen0: set<string>, out0: seq<Scored>,
                   ghost ps: seq<Probe>, ghost tombstones: set<string>)
    returns (seen: set<string>, out: seq<Scored>)
    requires KeyedById(tier1)
    requires Gathered(q, ps + [Probe(tombstones, map[], [])], seen0, out0)
    ensures Gathered(q, ps + [Probe(tombstones, tier1, [])], seen, out)
  {
    seen, out := seen0, out0;
    var rest := tier1.Keys;
    ghost var done: map<string, VectorRecord> := map[];
    while rest != {}
      invariant rest <= tier1.Keys && done == tier1 - rest
      invariant Gathered(q, ps + [Probe(tombstones, done, [])], seen, out)
      decreases rest
    {
      var id :| id in rest;
      seen, out := ScanTier1Record(q, tier1[id], seen, out, ps, tombstones, done);
      rest := rest - {id};
      done := done[id := tier1[id]];
    }
    assert done == tier1;
  }

  method ScanTier2(q: SearchQuery, candidates: seq<Scored>, seen0: set<string>, out0: seq<Scored>,
                   ghost ps: seq<Probe>, ghost tombstones: set<string>, ghost tier1: map<string, VectorRecord>)
    returns (seen: set<string>, out: seq<Scored>)
    requires Gathered(q, ps + [Probe(tombstones, tier1, [])], seen0, out0)
    ensures Gathered(q, ps + [Probe(tombstones, tier1, candidates)], seen, out)
  {
    seen, out := seen0, out0;
    for i := 0 to |candidates|
      invariant Gathered(q, ps + [Probe(tombstones, tier1, candidates[..i])], seen, out)
    {
      var s := candidates[i];
      ghost var seenBefore, outBefore := seen, out;
      if Passes(q, s) && s.record.id !in seen {
        out := out + [s];
        seen := seen + {s.record.id};
      }
      OneMoreInTier2(q, tombstones, tier1, candidates, i);
      GatherStep(q, ps, Probe(tombstones, tier1, candidates[..i]), Probe(tombstones, tier1, candidates[..i + 1]), s,
                 seenBefore, outBefore, seen, out);
    }
    assert candidates[..|candidates|] == candidates;
  }

  // ---------------------------------------------------------------------
  // Sorting and cutting
  // ---------------------------------------------------------------------

  ghost predicate Descending(out: seq<Scored>) {
    forall i, j :: 0 <= i < j < |out| ==> out[i].score >= out[j].score
  }

  /** Inserts after every element that scores at least as much, so equal scores keep their order. */
  function InsertByScore(s: Scored, sorted: seq<Scored>): (r: seq<Scored>)
    requires Descending(sorted)
    ensures Descending(r) && |r| == |sorted| + 1
    ensures forall x :: x in r <==> x == s || x in sorted
  {
    if sorted == [] then [s]
    else if s.score > sorted[0].score then [s] + sorted
    else
      var rest := InsertByScore(s, sorted[1..]);
      assert forall i :: 0 <= i < |rest| ==> rest[i] in rest;
      assert forall x <- sorted[1..] :: x.score <= sorted[0].score;
      [sorted[0]] + rest
  }

  function SortByScore(out: seq<Scored>): (r: seq<Scored>)
    ensures Descending(r) && |r| == |out|
    ensures forall x :: x in r <==> x in out
  {
    if out == [] then [] else InsertByScore(out[|out| - 1], SortByScore(out[..|out| - 1]))
  }

  ghost predicate DistinctIds(out: seq<Scored>) {
    forall i, j :: 0 <= i < j < |out| ==> out[i].record.id != out[j].record.id
  }

  lemma {:induction false} InsertKeepsDistinct(s: Scored, sorted: seq<Scored>)
    requires Descending(sorted) && DistinctIds(sorted) && forall x <- sorted :: x.record.id != s.record.id
    ensures DistinctIds(InsertByScore(s, sorted))
  {
    if sorted != [] && s.score <= sorted[0].score {
      InsertKeepsDistinct(s, sorted[1..]);
      var rest := InsertByScore(s, sorted[1..]);
      forall x <- rest ensures x.record.id != sorted[0].record.id {
        assert x == s || x in sorted[1..];
      }
    }
  }

  lemma {:induction false} SortKeepsDistinct(out: seq<Scored>)
    requires DistinctIds(out)
    ensures DistinctIds(SortByScore(out))
  {
    if out != [] {
      var init := out[..|out| - 1];
      SortKeepsDistinct(init);
      InsertKeepsDistinct(out[|out| - 1], SortByScore(init));
    }
  }

  lemma SortKeepsGathered(q: SearchQuery, ps: seq<Probe>, seen: set<string>, out: seq<Scored>)
    requires Gathered(q, ps, seen, out)
    ensures Gathered(q, ps, seen, SortByScore(out))
  {
    var sorted := SortByScore(out);
    SortKeepsDistinct(out);
    assert OutIds(sorted) == OutIds(out);
    forall i | 0 <= i < |sorted| ensures Winner(q, ps, sorted[i].record.id) == Some(sorted[i]) {
      assert sorted[i] in out;
    }
  }

  function Cut(sorted: seq<Scored>, limit: nat): seq<SearchResult> {
    seq(if |sorted| <= limit then |sorted| else limit, i requires 0 <= i < |sorted| => ResultOf(sorted[i]))
  }

  lemma CutIsTop(q: SearchQuery, ps: seq<Probe>, seen: set<string>, sorted: seq<Scored>)
    requires Gathered(q, ps, seen, sorted) && Descending(sorted)
    ensures IsTop(q, ps, Cut(sorted, q.limit))
  {
    var results := Cut(sorted, q.limit);
    forall m | 0 <= m < |results| ensures sorted[m].record.id in ResultIds(results) {
      assert results[m] in results;
    }
    forall id | Winner(q, ps, id).Some? && id !in ResultIds(results)
      ensures |results| == q.limit && forall r <- results :: r.score >= Winner(q, ps, id).value.score
    {
      var m :| 0 <= m < |sorted| && sorted[m].record.id == id;
    }
  }

  method ScanLayer(q: SearchQuery, layer: Layer, hits: seq<IndexHit>, seen0: set<string>, out0: seq<Scored>,
                   ghost ps: seq<Probe>)
    returns (seen: set<string>, out: seq<Scored>)
    requires KeyedById(CollectionOf(layer, q.collection).tier1)
    requires Gathered(q, ps, seen0, out0)
    ensures Gathered(q, ps + [ProbeLayer(q, layer, hits)], seen, out)
  {
    var col := CollectionOf(layer, q.collection);
    EmptyProbeGathers(q, ps, layer.tombstones, seen0, out0);
    seen, out := ScanTier1(q, col.tier1, seen0 + layer.tombstones, out0, ps, layer.tombstones);
    var candidates := Tier2Candidates(q, col.tier2, hits);
    seen, out := ScanTier2(q, candidates, seen, out, ps, layer.tombstones, col.tier1);
  }

  lemma ProbeStackSnoc(q: SearchQuery, st: seq<Layer>, answers: seq<seq<IndexHit>>, k: nat)
    requires |answers| == |st| && k < |st|
    ensures ProbeStack(q, st[..k + 1], answers[..k + 1])
         == ProbeStack(q, st[..k], answers[..k]) + [ProbeLayer(q, st[k], answers[k])]
  {
  }

  method ScanStack(q: SearchQuery, st: seq<Layer>, answers: seq<seq<IndexHit>>)
    returns (out: seq<Scored>, seen: set<string>)
    requires |answers| == |st| && StackKeyed(st)
    ensures Gathered(q, ProbeStack(q, st, answers), seen, out)
  {
    out, seen := [], {};
    for k := 0 to |st|
      invariant Gathered(q, ProbeStack(q, st[..k], answers[..k]), seen, out)
    {
      TierOneKeyed(q, st, k);
      ProbeStackSnoc(q, st, answers, k);
      seen, out := ScanLayer(q, st[k], answers[k], seen, out, ProbeStack(q, st[..k], answers[..k]));
    }
    assert st[..|st|] == st && answers[..|st|] == answers;
  }

  lemma TierOneKeyed(q: SearchQuery, st: seq<Layer>, k: nat)
    requires StackKeyed(st) && k < |st|
    ensures KeyedById(CollectionOf(st[k], q.collection).tier1)
  {
    assert st[k] in st;
  }

  /**
   Similarity search over a stack of layers. For any answers of the indexes
   the result is a legal answer in the sense of `IsTop`.
   */
  method Recall(q: SearchQuery, st: seq<Layer>, answers: seq<seq<IndexHit>>) returns (results: seq<SearchResult>)
    requires |answers| == |st| && StackKeyed(st)
    ensures IsTop(q, ProbeStack(q, st, answers), results)
  {
    var out, seen := ScanStack(q, st, answers);
    SortKeepsGathered(q, ProbeStack(q, st, answers), seen, out);
    CutIsTop(q, ProbeStack(q, st, answers), seen, SortByScore(out));
    results := Cut(SortByScore(out), q.limit);
  }
}
