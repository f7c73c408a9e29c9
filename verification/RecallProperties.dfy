/** What every answer of `VectorRecall.Recall` satisfies, and when the index limit costs nothing. */
module RecallProperties {
  import opened Wrappers
  import opened VectorRecall

  /**
   Every result has id, metadata and score of a version that a layer offers,
   passing the minimum score, deleted by neither that layer nor a newer one, and
   no newer layer has a passing version of its id.
   */
  lemma ResultsAreAdmissible(q: SearchQuery, ps: seq<Probe>, out: seq<SearchResult>, r: SearchResult)
    requires IsTop(q, ps, out) && r in out
    ensures r.score >= q.minScore
    ensures exists k: nat, s: Scored ::
              && WonAt(q, ps, r.id, k, s) && s in Versions(q, ps[k], r.id)
              && r.id == s.record.id && r.score == s.score && r.metadata == s.record.metadata
  {
    var i :| 0 <= i < |out| && out[i] == r;
    var s := Winner(q, ps, r.id).value;
    WinnerIff(q, ps, r.id, s);
    var k: nat :| WonAt(q, ps, r.id, k, s);
    FirstPassingIn(q, Versions(q, ps[k], r.id));
  }

  /** An id with a version that reaches the minimum score is missing only from a full answer that scores as much. */
  lemma NothingIsMissed(q: SearchQuery, ps: seq<Probe>, out: seq<SearchResult>, id: string, s: Scored)
    requires IsTop(q, ps, out) && s in Visible(q, ps, id) && s.score >= q.minScore
    ensures id in ResultIds(out) || (|out| == q.limit && forall r <- out :: r.score >= q.minScore)
  {
    FirstPassingIn(q, Visible(q, ps, id));
  }

  lemma OneMoreResultId(init: seq<SearchResult>, last: SearchResult)
    requires forall r <- init :: r.id != last.id
    ensures |ResultIds(init + [last])| == |ResultIds(init)| + 1
  {
    assert forall r :: r in init + [last] <==> r in init || r == last;
    assert ResultIds(init + [last]) == ResultIds(init) + {last.id};
  }

  lemma {:induction false} DistinctResultCount(out: seq<SearchResult>)
    requires forall i, j :: 0 <= i < j < |out| ==> out[i].id != out[j].id
    ensures |ResultIds(out)| == |out|
  {
    if out != [] {
      var init, last := out[..|out| - 1], out[|out| - 1];
      DistinctResultCount(init);
      OneMoreResultId(init, last);
      assert out == init + [last];
    }
  }

  lemma SmallerSet(a: set<string>, b: set<string>)
    requires a <= b
    ensures |a| <= |b|
    ensures |a| == |b| ==> a == b
  {
    assert b == a + (b - a);
    assert |b| == |a| + |b - a|;
  }

  lemma LargerSet(a: set<string>, b: set<string>)
    requires |a| > |b|
    ensures exists id :: id in a && id !in b
  {
    if a <= b {
      SmallerSet(a, b);
    }
  }

  /** Of more than `i` ids that are all in `out`, one is not among its first `i`. */
  lemma SomeAtOrAfter(out: seq<SearchResult>, good: set<string>, i: nat) returns (j: nat)
    requires i < |good| && i <= |out| && good <= ResultIds(out)
    requires forall a, b :: 0 <= a < b < |out| ==> out[a].id != out[b].id
    ensures i <= j < |out| && out[j].id in good
  {
    DistinctResultCount(out[..i]);
    LargerSet(good, ResultIds(out[..i]));
    var id :| id in good && id !in ResultIds(out[..i]);
    forall a | 0 <= a < i ensures out[a].id != id {
      assert out[..i][a] in out[..i];
    }
    j :| 0 <= j < |out| && out[j].id == id;
  }

  /** If more than `i` winners score at least `score`, so does the answer's entry `i`. */
  lemma RankAtLeast(q: SearchQuery, ps: seq<Probe>, out: seq<SearchResult>, good: set<string>, score: real, i: nat)
    requires IsTop(q, ps, out) && i < |good| && i < q.limit
    requires forall id <- good :: Winner(q, ps, id).Some? && Winner(q, ps, id).value.score >= score
    ensures i < |out| && out[i].score >= score
  {
    if good <= ResultIds(out) {
      DistinctResultCount(out);
      SmallerSet(good, ResultIds(out));
      var j := SomeAtOrAfter(out, good, i);
      assert out[j] == ResultOf(Winner(q, ps, out[j].id).value);
      assert i < j ==> out[i].score >= out[j].score;
    } else {
      var id :| id in good && id !in ResultIds(out);
      assert out[i] in out;
    }
  }

  lemma TopDominates(q: SearchQuery, ps: seq<Probe>, a: seq<SearchResult>, b: seq<SearchResult>, i: nat)
    requires IsTop(q, ps, a) && IsTop(q, ps, b) && i < |a|
    ensures i < |b| && b[i].score >= a[i].score
  {
    var good := ResultIds(a[..i + 1]);
    DistinctResultCount(a[..i + 1]);
    forall id <- good ensures Winner(q, ps, id).Some? && Winner(q, ps, id).value.score >= a[i].score {
      var k :| 0 <= k <= i && a[k].id == id;
    }
    RankAtLeast(q, ps, b, good, a[i].score, i);
  }

  /** Two legal answers to one query list the same scores, however the hash maps were iterated. */
  lemma ScoresAreDetermined(q: SearchQuery, ps: seq<Probe>, a: seq<SearchResult>, b: seq<SearchResult>)
    requires IsTop(q, ps, a) && IsTop(q, ps, b)
    ensures |a| == |b| && forall i :: 0 <= i < |a| ==> a[i].score == b[i].score
  {
    forall i: nat | i < |a| ensures i < |b| && b[i].score >= a[i].score { TopDominates(q, ps, a, b, i); }
    forall i: nat | i < |b| ensures i < |a| && a[i].score >= b[i].score { TopDominates(q, ps, b, a, i); }
    if a != [] { TopDominates(q, ps, a, b, |a| - 1); }
    if b != [] { TopDominates(q, ps, b, a, |b| - 1); }
  }

  // ---------------------------------------------------------------------
  // Fetching five times the limit is enough
  // ---------------------------------------------------------------------

  ghost predicate DistinctRecords(records: seq<VectorRecord>) {
    forall i, j :: 0 <= i < j < |records| ==> records[i].id != records[j].id
  }

  /** The index answers with every record once, nearest first, with its true score. */
  ghost predicate ExactAnswer(q: SearchQuery, records: seq<VectorRecord>, hits: seq<IndexHit>) {
    && |hits| == |records|
    && (forall i, j :: 0 <= i < j < |hits| ==> hits[i].id != hits[j].id && hits[i].score >= hits[j].score)
    && (forall i :: 0 <= i < |hits| ==>
          FirstWithId(records, hits[i].id).Some?
          && hits[i].score == q.similarity(FirstWithId(records, hits[i].id).value.vector))
  }

  /** The tier-2 ids that a tombstone deletes or tier 1 shadows. */
  ghost function HiddenIds(l: Layer, col: VectorCollection): set<string> {
    set r <- col.tier2.records | r.id in l.tombstones || r.id in col.tier1 :: r.id
  }

  lemma {:induction false} FirstWithIdFinds(records: seq<VectorRecord>, id: string)
    ensures var r := FirstWithId(records, id);
            if r.Some? then r.value in records && r.value.id == id else forall x <- records :: x.id != id
  {
    if records != [] {
      FirstWithIdFinds(records[1..], id);
      assert forall x <- records :: x == records[0] || x in records[1..];
    }
  }

  lemma {:induction false} WithIdDistinct(vs: seq<Scored>, k: nat)
    requires DistinctIds(vs) && k < |vs|
    ensures WithId(vs, vs[k].record.id) == [vs[k]]
  {
    if k == 0 {
      WithIdAbsent(vs[1..], vs[0].record.id);
    } else {
      WithIdDistinct(vs[1..], k - 1);
    }
  }

  lemma {:induction false} WithIdAbsent(vs: seq<Scored>, id: string)
    requires forall s <- vs :: s.record.id != id
    ensures WithId(vs, id) == []
  {
    if vs != [] {
      assert vs[0] in vs;
      WithIdAbsent(vs[1..], id);
    }
  }

  lemma {:induction false} IndexCandidatesAt(records: seq<VectorRecord>, hits: seq<IndexHit>)
    requires forall i :: 0 <= i < |hits| ==> FirstWithId(records, hits[i].id).Some?
    ensures var x := IndexCandidates(records, hits);
            |x| == |hits|
            && forall i :: 0 <= i < |hits| ==> x[i] == Scored(hits[i].score, FirstWithId(records, hits[i].id).value)
  {
    if hits != [] {
      assert FirstWithId(records, hits[0].id).Some?;
      IndexCandidatesAt(records, hits[1..]);
    }
  }

  lemma {:induction false} DistinctIdCount(vs: seq<Scored>)
    requires DistinctIds(vs)
    ensures |OutIds(vs)| == |vs|
  {
    if vs != [] {
      var init, last := vs[..|vs| - 1], vs[|vs| - 1];
      DistinctIdCount(init);
      assert vs == init + [last];
      assert OutIds(vs) == OutIds(init) + {last.record.id};
    }
  }

  /** An exact answer lists the scanned candidates in another order. */
  lemma ExactCandidates(q: SearchQuery, records: seq<VectorRecord>, hits: seq<IndexHit>)
    requires DistinctRecords(records) && ExactAnswer(q, records, hits)
    ensures var x := IndexCandidates(records, hits);
            DistinctIds(x) && Descending(x) && forall s :: s in x <==> s in ScanCandidates(q, records)
  {
    var x, y := IndexCandidates(records, hits), ScanCandidates(q, records);
    IndexCandidatesAt(records, hits);
    forall i | 0 <= i < |hits| ensures x[i].record.id == hits[i].id && x[i] in y {
      FirstWithIdFinds(records, hits[i].id);
      var k :| 0 <= k < |records| && records[k] == x[i].record;
      assert y[k] == x[i];
    }
    assert DistinctIds(x);
    assert DistinctIds(y);
    DistinctIdCount(x);
    DistinctIdCount(y);
    assert OutIds(x) <= OutIds(y);
    SmallerSet(OutIds(x), OutIds(y));
    forall s <- y ensures s in x {
      assert s.record.id in OutIds(y);
      var i :| 0 <= i < |x| && x[i].record.id == s.record.id;
      assert x[i] in y;
    }
  }

  ghost function Top5(limit: nat, x: seq<Scored>): seq<Scored> {
    if |x| <= 5 * limit then x else x[..5 * limit]
  }

  /** Cutting a nearest-first list to a prefix changes a winner only by losing one the prefix does not hold. */
  lemma PrefixWinner(q: SearchQuery, tombstones: set<string>, tier1: map<string, VectorRecord>,
                     x: seq<Scored>, y: seq<Scored>, k: nat, id: string)
    requires DistinctIds(x) && DistinctIds(y) && k <= |x| && forall s :: s in x <==> s in y
    ensures var short := Winner(q, [Probe(tombstones, tier1, x[..k])], id);
            var full := Winner(q, [Probe(tombstones, tier1, y)], id);
            short == full
            || (short.None? && full.Some? && full.value in x[k..] && Passes(q, full.value))
    ensures id !in tombstones && id !in tier1 ==>
              forall i :: 0 <= i < k && x[i].record.id == id && Passes(q, x[i]) ==>
                Winner(q, [Probe(tombstones, tier1, x[..k])], id) == Some(x[i])
  {
    var p, f := Probe(tombstones, tier1, x[..k]), Probe(tombstones, tier1, y);
    OneProbeWinner(q, p, id);
    OneProbeWinner(q, f, id);
    if i :| 0 <= i < |x| && x[i].record.id == id {
      assert x[i] in y;
      var j :| 0 <= j < |y| && y[j] == x[i];
      WithIdDistinct(y, j);
      if i < k {
        assert x[..k][i] == x[i];
        WithIdDistinct(x[..k], i);
      } else {
        WithIdAbsent(x[..k], id);
        assert x[i] == x[k..][i - k];
      }
    } else {
      WithIdAbsent(x[..k], id);
      forall s <- y ensures s.record.id != id {
        assert s in x;
      }
      WithIdAbsent(y, id);
    }
  }

  lemma OneProbeWinner(q: SearchQuery, p: Probe, id: string)
    ensures Winner(q, [p], id)
         == if id in p.tombstones then None
            else if id in p.tier1 && Passes(q, ScoreOf(q, p.tier1[id])) then Some(ScoreOf(q, p.tier1[id]))
            else FirstPassing(q, WithId(p.tier2, id))
  {
    assert Visible(q, [p][1..], id) == [];
    assert Versions(q, p, id) + [] == Versions(q, p, id);
    FirstPassingConcat(q, if id in p.tier1 then [ScoreOf(q, p.tier1[id])] else [], WithId(p.tier2, id));
  }

  /** A winner that only the full list has is beaten by every one of a full answer of the prefix. */
  lemma LostIsBeaten(q: SearchQuery, tombstones: set<string>, tier1: map<string, VectorRecord>,
                     x: seq<Scored>, y: seq<Scored>, k: nat, out: seq<SearchResult>, m: nat)
    requires DistinctIds(x) && Descending(x) && DistinctIds(y) && forall s :: s in x <==> s in y
    requires |(tombstones + tier1.Keys) * OutIds(x)| <= 4 * q.limit && k == 5 * q.limit <= m < |x|
    requires IsTop(q, [Probe(tombstones, tier1, x[..k])], out) && Passes(q, x[m])
    ensures |out| == q.limit && forall r <- out :: r.score >= x[m].score
  {
    var ps, hidden := [Probe(tombstones, tier1, x[..k])], tombstones + tier1.Keys;
    EnoughVisible(q.limit, x, hidden);
    var good := OutIds(x[..k]) - hidden;
    forall g <- good ensures Winner(q, ps, g).Some? && Winner(q, ps, g).value.score >= x[m].score {
      var i :| 0 <= i < k && x[i].record.id == g;
      assert x[i].score >= x[m].score;
      PrefixWinner(q, tombstones, tier1, x, y, k, g);
    }
    FullOfBetter(q, ps, out, good, x[m].score);
  }

  /** At least `limit` of the first five times `limit` hits are neither deleted nor shadowed. */
  lemma EnoughVisible(limit: nat, x: seq<Scored>, hidden: set<string>)
    requires DistinctIds(x) && |x| >= 5 * limit
    requires |hidden * OutIds(x)| <= 4 * limit
    ensures |OutIds(x[..5 * limit]) - hidden| >= limit
  {
    var first := OutIds(x[..5 * limit]);
    DistinctIdCount(x[..5 * limit]);
    assert first == (first - hidden) + (first * hidden);
    assert first * hidden <= hidden * OutIds(x);
    SmallerSet(first * hidden, hidden * OutIds(x));
  }

  lemma FullOfBetter(q: SearchQuery, ps: seq<Probe>, out: seq<SearchResult>, good: set<string>, score: real)
    requires IsTop(q, ps, out) && |good| >= q.limit
    requires forall id <- good :: Winner(q, ps, id).Some? && Winner(q, ps, id).value.score >= score
    ensures |out| == q.limit && forall r <- out :: r.score >= score
  {
    if q.limit > 0 {
      RankAtLeast(q, ps, out, good, score, q.limit - 1);
    }
  }

  lemma OverFetch(q: SearchQuery, tombstones: set<string>, tier1: map<string, VectorRecord>,
                  x: seq<Scored>, y: seq<Scored>, out: seq<SearchResult>)
    requires DistinctIds(x) && Descending(x) && DistinctIds(y) && forall s :: s in x <==> s in y
    requires |(tombstones + tier1.Keys) * OutIds(x)| <= 4 * q.limit
    requires IsTop(q, [Probe(tombstones, tier1, Top5(q.limit, x))], out)
    ensures IsTop(q, [Probe(tombstones, tier1, y)], out)
  {
    var k := if |x| <= 5 * q.limit then |x| else 5 * q.limit;
    assert Top5(q.limit, x) == x[..k];
    var ps, full := [Probe(tombstones, tier1, x[..k])], [Probe(tombstones, tier1, y)];
    forall i | 0 <= i < |out| ensures Winner(q, full, out[i].id) == Winner(q, ps, out[i].id) {
      PrefixWinner(q, tombstones, tier1, x, y, k, out[i].id);
    }
    forall id | Winner(q, full, id).Some? && id !in ResultIds(out)
      ensures |out| == q.limit && forall r <- out :: r.score >= Winner(q, full, id).value.score
    {
      PrefixWinner(q, tombstones, tier1, x, y, k, id);
      if Winner(q, ps, id).None? {
        var m :| k <= m < |x| && x[m] == Winner(q, full, id).value;
        LostIsBeaten(q, tombstones, tier1, x, y, k, out, m);
      }
    }
  }

  ghost function ScanProbe(q: SearchQuery, l: Layer): Probe {
    var col := CollectionOf(l, q.collection);
    Probe(l.tombstones, col.tier1, ScanCandidates(q, col.tier2.records))
  }

  lemma FetchedCandidates(q: SearchQuery, records: seq<VectorRecord>, hits: seq<IndexHit>)
    requires q.limit * 5 < 0x1_0000_0000 && forall i :: 0 <= i < |hits| ==> FirstWithId(records, hits[i].id).Some?
    ensures IndexCandidates(records, Fetched(q, hits)) == Top5(q.limit, IndexCandidates(records, hits))
  {
    IndexCandidatesAt(records, hits);
    IndexCandidatesAt(records, Fetched(q, hits));
  }

  /**
   Taking only `limit * 5` hits of an exact index gives a legal answer of the
   full scan, as long as at most `limit * 4` tier-2 ids are deleted or shadowed.
   */
  lemma OverFetchIsEnough(q: SearchQuery, l: Layer, hits: seq<IndexHit>, out: seq<SearchResult>)
    requires var t2 := CollectionOf(l, q.collection).tier2;
             t2.indexed && DistinctRecords(t2.records) && ExactAnswer(q, t2.records, hits)
    requires q.limit * 5 < 0x1_0000_0000
    requires |HiddenIds(l, CollectionOf(l, q.collection))| <= 4 * q.limit
    requires IsTop(q, [ProbeLayer(q, l, hits)], out)
    ensures IsTop(q, [ScanProbe(q, l)], out)
  {
    var col := CollectionOf(l, q.collection);
    var records := col.tier2.records;
    var x, y := IndexCandidates(records, hits), ScanCandidates(q, records);
    ExactCandidates(q, records, hits);
    FetchedCandidates(q, records, hits);
    assert (l.tombstones + col.tier1.Keys) * OutIds(x) == HiddenIds(l, col) by {
      HiddenAmongCandidates(q, l, col, x);
    }
    OverFetch(q, l.tombstones, col.tier1, x, y, out);
  }

  /** Of a layer's index a query takes `limit * 5` hits and no more. */
  lemma MoreHitsAreIgnored(q: SearchQuery, l: Layer, hits: seq<IndexHit>, more: seq<IndexHit>)
    requires q.limit * 5 == |hits| < 0x1_0000_0000
    ensures ProbeLayer(q, l, hits + more) == ProbeLayer(q, l, hits)
  {
    assert (hits + more)[..|hits|] == hits;
    assert more == [] ==> hits + more == hits;
    assert Fetched(q, hits + more) == Fetched(q, hits) == hits;
  }

  lemma HiddenAmongCandidates(q: SearchQuery, l: Layer, col: VectorCollection, x: seq<Scored>)
    requires forall s :: s in x <==> s in ScanCandidates(q, col.tier2.records)
    ensures (l.tombstones + col.tier1.Keys) * OutIds(x) == HiddenIds(l, col)
  {
    var records := col.tier2.records;
    forall r <- records ensures r.id in OutIds(x) {
      var k :| 0 <= k < |records| && records[k] == r;
      assert ScanCandidates(q, records)[k] in x;
    }
    forall s <- x ensures s.record in records {
      assert s in ScanCandidates(q, records);
    }
  }
}
