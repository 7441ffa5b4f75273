/** The merge step of the automatic lookup: local and remote hits become one ranked, filtered, capped list. */
module Lookup {
  import opened Ranking

  datatype Hit = Hit(
    kuId: string,
    summary: string,
    action: string,
    domains: seq<string>,
    similarity: real,
    confidence: real,
    createdBy: string)

  datatype Request = Request(
    maxResults: nat,
    minSimilarity: real,
    minConfidence: real,
    excludeSelf: bool,
    persona: string)

  /** The position of unit `id`, or the length of the list. */
  function IndexOf(hits: seq<Hit>, id: string): (k: nat)
    ensures k <= |hits| && (k < |hits| ==> hits[k].kuId == id)
    ensures forall j :: 0 <= j < k ==> hits[j].kuId != id
  {
    if hits == [] || hits[0].kuId == id then 0 else 1 + IndexOf(hits[1..], id)
  }

  /** `h` joins a list with one copy per unit: it replaces a less similar copy in place. */
  function Put(hits: seq<Hit>, h: Hit): seq<Hit> {
    var k := IndexOf(hits, h.kuId);
    if k == |hits| then hits + [h]
    else if h.similarity > hits[k].similarity then hits[k := h]
    else hits
  }

  /** One copy per unit: the first among the most similar ones, where the unit first occurred. */
  function BestCopies(candidates: seq<Hit>): seq<Hit> {
    if candidates == [] then []
    else Put(BestCopies(candidates[..|candidates| - 1]), candidates[|candidates| - 1])
  }

  ghost predicate OnePerUnit(hits: seq<Hit>) {
    forall i, j :: 0 <= i < j < |hits| ==> hits[i].kuId != hits[j].kuId
  }

  /** Some copy of `h`'s unit in `hits` is at least as similar. */
  ghost predicate Covers(hits: seq<Hit>, h: Hit) {
    exists b :: b in hits && b.kuId == h.kuId && b.similarity >= h.similarity
  }

  lemma PutProperties(hits: seq<Hit>, h: Hit)
    requires OnePerUnit(hits)
    ensures OnePerUnit(Put(hits, h))
    ensures forall b :: b in Put(hits, h) ==> b in hits || b == h
    ensures Covers(Put(hits, h), h)
    ensures forall b :: Covers(hits, b) ==> Covers(Put(hits, h), b)
  {
    var k, r := IndexOf(hits, h.kuId), Put(hits, h);
    assert r[k] in r;
    forall c | Covers(hits, c) ensures Covers(r, c) {
      var b :| b in hits && b.kuId == c.kuId && b.similarity >= c.similarity;
      var i :| 0 <= i < |hits| && hits[i] == b;
      assert r[i] in r;
    }
  }

  lemma {:induction false} BestCopiesProperties(candidates: seq<Hit>)
    ensures OnePerUnit(BestCopies(candidates))
    ensures forall b :: b in BestCopies(candidates) ==> b in candidates
    ensures forall c :: c in candidates ==> Covers(BestCopies(candidates), c)
  {
    if candidates == [] {
    } else {
      var init, last := candidates[..|candidates| - 1], candidates[|candidates| - 1];
      assert candidates == init + [last];
      BestCopiesProperties(init);
      PutProperties(BestCopies(init), last);
    }
  }

  /** Candidate `i` is the first copy of its unit among the most similar ones. */
  ghost predicate IsFirstBest(candidates: seq<Hit>, i: nat)
    requires i < |candidates|
  {
    forall j :: 0 <= j < |candidates| && candidates[j].kuId == candidates[i].kuId ==>
      if j < i then candidates[j].similarity < candidates[i].similarity
      else candidates[j].similarity <= candidates[i].similarity
  }

  ghost predicate HasFirstBest(candidates: seq<Hit>, b: Hit) {
    exists i :: 0 <= i < |candidates| && candidates[i] == b && IsFirstBest(candidates, i)
  }

  /** The units that occur, in order of first occurrence. */
  function UnitsOf(candidates: seq<Hit>): seq<string> {
    if candidates == [] then []
    else
      var before, id := UnitsOf(candidates[..|candidates| - 1]), candidates[|candidates| - 1].kuId;
      if id in before then before else before + [id]
  }

  ghost predicate AreCopiesOf(hits: seq<Hit>, units: seq<string>) {
    |hits| == |units| && forall k :: 0 <= k < |hits| ==> hits[k].kuId == units[k]
  }

  lemma StaysBest(init: seq<Hit>, h: Hit, b: Hit)
    requires HasFirstBest(init, b) && (b.kuId != h.kuId || h.similarity <= b.similarity)
    ensures HasFirstBest(init + [h], b)
  {
    var i :| 0 <= i < |init| && init[i] == b && IsFirstBest(init, i);
    assert IsFirstBest(init + [h], i);
  }

  lemma BecomesBest(init: seq<Hit>, hits: seq<Hit>, h: Hit)
    requires forall c :: c in init ==> Covers(hits, c)
    requires forall b :: b in hits && b.kuId == h.kuId ==> b.similarity < h.similarity
    ensures HasFirstBest(init + [h], h)
  {
    forall j | 0 <= j < |init| && init[j].kuId == h.kuId ensures init[j].similarity < h.similarity {
      assert Covers(hits, init[j]);
    }
    assert (init + [h])[|init|] == h && IsFirstBest(init + [h], |init|);
  }

  /** A copy stays unless the new one is more similar, and the new one is taken only over less similar copies. */
  lemma PutTakes(hits: seq<Hit>, h: Hit, units: seq<string>)
    requires OnePerUnit(hits) && AreCopiesOf(hits, units)
    ensures forall b :: b in Put(hits, h) ==>
              || (b in hits && (b.kuId != h.kuId || h.similarity <= b.similarity))
              || (b == h && forall c :: c in hits && c.kuId == h.kuId ==> c.similarity < h.similarity)
    ensures AreCopiesOf(Put(hits, h), if h.kuId in units then units else units + [h.kuId])
  {
    var k := IndexOf(hits, h.kuId);
    if k < |hits| {
      assert units[k] == h.kuId && hits[k] in hits;
    }
  }

  /** Every best copy is the first among the most similar ones, and the units keep the order they occurred in. */
  lemma {:induction false} BestCopiesAreFirst(candidates: seq<Hit>)
    ensures forall b :: b in BestCopies(candidates) ==> HasFirstBest(candidates, b)
    ensures AreCopiesOf(BestCopies(candidates), UnitsOf(candidates))
  {
    hide Put, HasFirstBest, AreCopiesOf, Covers, OnePerUnit;
    if candidates == [] {
      NoCopies();
    } else {
      var init, h := candidates[..|candidates| - 1], candidates[|candidates| - 1];
      assert candidates == init + [h];
      BestCopiesAreFirst(init);
      BestCopiesProperties(init);
      PutTakes(BestCopies(init), h, UnitsOf(init));
      forall b | b in BestCopies(candidates) ensures HasFirstBest(candidates, b) {
        if b in BestCopies(init) && (b.kuId != h.kuId || h.similarity <= b.similarity) {
          StaysBest(init, h, b);
        } else {
          BecomesBest(init, BestCopies(init), h);
        }
      }
    }
  }

  lemma NoCopies()
    ensures AreCopiesOf([], [])
  {
  }

  function ScoreAll(hits: seq<Hit>): (r: seq<Scored<Hit>>)
    ensures |r| == |hits| && forall i :: 0 <= i < |r| ==> r[i] == Scored(hits[i], hits[i].similarity)
  {
    seq(|hits|, i requires 0 <= i < |hits| => Scored(hits[i], hits[i].similarity))
  }

  function Items(s: seq<Scored<Hit>>): (r: seq<Hit>)
    ensures |r| == |s| && forall i :: 0 <= i < |r| ==> r[i] == s[i].item
  {
    seq(|s|, i requires 0 <= i < |s| => s[i].item)
  }

  /** The candidates as they are examined: best copies, most similar first, ties in order of arrival. */
  function Merged(candidates: seq<Hit>): seq<Hit> {
    Items(StableDesc(ScoreAll(BestCopies(candidates))))
  }

  predicate Passes(h: Hit, req: Request) {
    && h.similarity >= req.minSimilarity
    && h.confidence >= req.minConfidence
    && !(req.excludeSelf && req.persona != "" && h.createdBy == req.persona)
  }

  function Passing(hits: seq<Hit>, req: Request): seq<Hit> {
    if hits == [] then []
    else Passing(hits[..|hits| - 1], req) + (if Passes(hits[|hits| - 1], req) then [hits[|hits| - 1]] else [])
  }

  /** Examining stops after the first `k` hits: at the end, or just behind the hit that fills the quota. */
  ghost predicate StopsAfter(hits: seq<Hit>, req: Request, k: nat) {
    && k <= |hits|
    && |Passing(hits[..k], req)| <= req.maxResults
    && (k < |hits| ==> |Passing(hits[..k], req)| == req.maxResults)
    && (|Passing(hits[..k], req)| == req.maxResults ==> k > 0 && Passes(hits[k - 1], req))
  }

  method MergeCopies(candidates: seq<Hit>) returns (merged: seq<Hit>)
    ensures merged == BestCopies(candidates)
  {
    var byId: map<string, nat> := map[];
    merged := [];
    for i := 0 to |candidates|
      invariant merged == BestCopies(candidates[..i])
      invariant forall k :: 0 <= k < |merged| ==> merged[k].kuId in byId
      invariant forall id :: id in byId ==> byId[id] < |merged| && merged[byId[id]].kuId == id
    {
      var c := candidates[i];
      assert candidates[..i + 1][..i] == candidates[..i];
      BestCopiesProperties(candidates[..i]);
      if c.kuId !in byId {
        byId := byId[c.kuId := |merged|];
        merged := merged + [c];
      } else {
        var k := byId[c.kuId];
        assert k == IndexOf(merged, c.kuId);
        if c.similarity > merged[k].similarity {
          merged := merged[k := c];
        }
      }
    }
    assert candidates[..|candidates|] == candidates;
  }

  /** `dropped` counts the failing hits among those examined before the quota was filled. */
  method Select(candidates: seq<Hit>, req: Request) returns (results: seq<Hit>, dropped: nat)
    requires req.maxResults > 0
    ensures exists k: nat ::
      && StopsAfter(Merged(candidates), req, k)
      && results == Passing(Merged(candidates)[..k], req) && dropped == k - |results|
    // The last hit examined is the last one of a full list.
    ensures dropped + |results| <= |Merged(candidates)|
    ensures if |results| < req.maxResults then dropped + |results| == |Merged(candidates)|
            else Merged(candidates)[dropped + |results| - 1] == results[|results| - 1]
    ensures forall h :: h in results ==>
      && h.similarity >= req.minSimilarity && h.confidence >= req.minConfidence
      && (req.excludeSelf && req.persona != "" ==> h.createdBy != req.persona)
    ensures |results| <= req.maxResults
    ensures |results| < req.maxResults ==>
      forall h | h in BestCopies(candidates) && h.similarity >= req.minSimilarity
                 && h.confidence >= req.minConfidence ::
        (req.excludeSelf && req.persona != "" && h.createdBy == req.persona) || h in results
  {
    hide BestCopies, StableDesc, Passing;
    var copies := MergeCopies(candidates);
    var scored := ScoreAll(copies);
    var a := new Scored<Hit>[|scored|](i requires 0 <= i < |scored| => scored[i]);
    assert a[..] == scored;
    SortDescending(a);
    var merged := Items(a[..]);
    assert merged == Merged(candidates);
    results, dropped := FilterUntilFull(merged, req);
    ghost var k: nat :| StopsAfter(merged, req, k) && results == Passing(merged[..k], req) && dropped == k - |results|;
    SelectedPass(candidates, req, k, results);
  }

  /** What the examined hits leave: every filter passed, and nothing left out while there is room. */
  lemma SelectedPass(candidates: seq<Hit>, req: Request, k: nat, results: seq<Hit>)
    requires req.maxResults > 0
    requires StopsAfter(Merged(candidates), req, k) && results == Passing(Merged(candidates)[..k], req)
    ensures forall h :: h in results ==>
      && h.similarity >= req.minSimilarity && h.confidence >= req.minConfidence
      && (req.excludeSelf && req.persona != "" ==> h.createdBy != req.persona)
    ensures |results| <= req.maxResults
    ensures |results| < req.maxResults ==>
      forall h | h in BestCopies(candidates) && h.similarity >= req.minSimilarity
                 && h.confidence >= req.minConfidence ::
        (req.excludeSelf && req.persona != "" && h.createdBy == req.persona) || h in results
  {
    hide Merged, BestCopies;
    var merged := Merged(candidates);
    PassingMembers(merged[..k], req);
    MergedProperties(candidates);
    if |results| < req.maxResults {
      assert merged[..k] == merged;
    }
  }

  method FilterUntilFull(merged: seq<Hit>, req: Request) returns (results: seq<Hit>, dropped: nat)
    requires req.maxResults > 0
    ensures exists k: nat ::
      StopsAfter(merged, req, k) && results == Passing(merged[..k], req) && dropped == k - |results|
    ensures dropped + |results| <= |merged|
    ensures if |results| < req.maxResults then dropped + |results| == |merged|
            else merged[dropped + |results| - 1] == results[|results| - 1]
  {
    results, dropped := [], 0;
    for i := 0 to |merged|
      invariant results == Passing(merged[..i], req) && dropped == i - |results|
      invariant |results| < req.maxResults
    {
      var c := merged[i];
      assert merged[..i + 1][..i] == merged[..i];
      if c.similarity < req.minSimilarity {
        dropped := dropped + 1;
        continue;
      }
      if c.confidence < req.minConfidence {
        dropped := dropped + 1;
        continue;
      }
      if req.excludeSelf && req.persona != "" && c.createdBy == req.persona {
        dropped := dropped + 1;
        continue;
      }
      results := results + [c];
      if |results| >= req.maxResults {
        assert StopsAfter(merged, req, i + 1);
        return;
      }
    }
    assert StopsAfter(merged, req, |merged|);
  }

  // ---- What the selection means ----

  lemma {:induction false} PassingPrefix(hits: seq<Hit>, req: Request, k: nat)
    requires k <= |hits|
    ensures |Passing(hits[..k], req)| <= |Passing(hits, req)| && |Passing(hits[..k], req)| <= k
    ensures Passing(hits[..k], req) == Passing(hits, req)[..|Passing(hits[..k], req)|]
  {
    if k < |hits| {
      var init := hits[..|hits| - 1];
      assert init[..k] == hits[..k];
      PassingPrefix(init, req, k);
    } else {
      assert hits[..k] == hits;
      PassingShorter(hits, req);
    }
  }

  lemma {:induction false} PassingShorter(hits: seq<Hit>, req: Request)
    ensures |Passing(hits, req)| <= |hits|
  {
    if hits == [] {
    } else {
      PassingShorter(hits[..|hits| - 1], req);
    }
  }

  lemma {:induction false} PassingMembers(hits: seq<Hit>, req: Request)
    ensures forall h :: h in Passing(hits, req) <==> h in hits && Passes(h, req)
    ensures OnePerUnit(hits) ==> OnePerUnit(Passing(hits, req))
  {
    if hits == [] {
    } else {
      var init, last := hits[..|hits| - 1], hits[|hits| - 1];
      assert hits == init + [last];
      PassingMembers(init, req);
      if OnePerUnit(hits) {
        forall h | h in Passing(init, req) ensures h.kuId != last.kuId {
          var i :| 0 <= i < |init| && init[i] == h;
          assert hits[i] == h;
        }
      }
    }
  }

  ghost predicate BySimilarity(hits: seq<Hit>) {
    forall i, j :: 0 <= i < j < |hits| ==> hits[i].similarity >= hits[j].similarity
  }

  lemma {:induction false} PassingBySimilarity(hits: seq<Hit>, req: Request)
    requires BySimilarity(hits)
    ensures BySimilarity(Passing(hits, req))
  {
    if hits == [] {
    } else {
      var init := hits[..|hits| - 1];
      PassingBySimilarity(init, req);
      PassingMembers(init, req);
      forall i | 0 <= i < |Passing(init, req)|
        ensures Passing(init, req)[i].similarity >= hits[|hits| - 1].similarity
      {
        assert Passing(init, req)[i] in init;
      }
    }
  }

  lemma MergedProperties(candidates: seq<Hit>)
    ensures OnePerUnit(Merged(candidates)) && BySimilarity(Merged(candidates))
    ensures |Merged(candidates)| == |BestCopies(candidates)|
    ensures forall h :: h in Merged(candidates) <==> h in BestCopies(candidates)
  {
    hide BestCopies, StableDesc;
    var copies := BestCopies(candidates);
    BestCopiesProperties(candidates);
    SortedHits(copies);
  }

  lemma SortedHits(copies: seq<Hit>)
    requires OnePerUnit(copies)
    ensures var merged := Items(StableDesc(ScoreAll(copies)));
      && OnePerUnit(merged) && BySimilarity(merged) && |merged| == |copies|
      && forall h :: h in merged <==> h in copies
  {
    hide StableDesc;
    var scored := ScoreAll(copies);
    var sorted := StableDesc(scored);
    var merged := Items(sorted);
    StableDescSorts(scored);
    StableDescMembers(scored);
    forall i | 0 <= i < |sorted| ensures sorted[i].score == merged[i].similarity && merged[i] in copies {
      assert sorted[i] in scored;
    }
    forall h | h in copies ensures h in merged {
      var i :| 0 <= i < |copies| && copies[i] == h;
      assert scored[i] in sorted;
      var j :| 0 <= j < |sorted| && sorted[j] == scored[i];
      assert merged[j] == h;
    }
    forall i, j | 0 <= i < j < |sorted| ensures merged[i].kuId != merged[j].kuId {
      assert sorted[i] in scored && sorted[j] in scored && sorted[i] != sorted[j];
    }
  }

  /**
   The results are the first `maxResults` passing best copies in order of similarity, and the drop count is
   exact whenever that list is not full.
   */
  lemma SelectionIsTopPassing(candidates: seq<Hit>, req: Request, k: nat, results: seq<Hit>, dropped: nat)
    requires req.maxResults > 0 && StopsAfter(Merged(candidates), req, k)
    requires results == Passing(Merged(candidates)[..k], req) && dropped == k - |results|
    ensures var all := Passing(Merged(candidates), req);
      && results == all[..if |all| <= req.maxResults then |all| else req.maxResults]
      && (|all| < req.maxResults ==> dropped == |BestCopies(candidates)| - |all|)
  {
    hide Merged, BestCopies;
    var merged := Merged(candidates);
    MergedProperties(candidates);
    PassingPrefix(merged, req, k);
    if k == |merged| {
      assert merged[..k] == merged;
    }
  }

  /** One hit per unit, best first, each the most similar copy of its unit and passing every filter. */
  lemma ResultsAreBestCopies(candidates: seq<Hit>, req: Request, results: seq<Hit>)
    requires results <= Passing(Merged(candidates), req)
    ensures OnePerUnit(results) && BySimilarity(results)
    ensures forall h :: h in results ==> h in candidates && Passes(h, req)
    ensures forall h, c :: h in results && c in candidates && c.kuId == h.kuId ==> c.similarity <= h.similarity
  {
    hide Merged, BestCopies, Passing, Passes;
    var all := Passing(Merged(candidates), req);
    MergedProperties(candidates);
    PassingMembers(Merged(candidates), req);
    PassingBySimilarity(Merged(candidates), req);
    BestCopiesProperties(candidates);
    assert forall h :: h in results ==> h in all;
    forall h, c | h in results && c in candidates && c.kuId == h.kuId ensures c.similarity <= h.similarity {
      assert Covers(BestCopies(candidates), c);
      var b :| b in BestCopies(candidates) && b.kuId == c.kuId && b.similarity >= c.similarity;
      assert b == h;
    }
  }

  /** A passing best copy is left out only for a full list of hits that are all at least as similar. */
  lemma OmittedHitsAreWorse(candidates: seq<Hit>, req: Request, n: nat, h: Hit)
    requires n <= |Passing(Merged(candidates), req)|
    requires h in BestCopies(candidates) && Passes(h, req) && h !in Passing(Merged(candidates), req)[..n]
    ensures n < |Passing(Merged(candidates), req)|
    ensures forall r :: r in Passing(Merged(candidates), req)[..n] ==> r.similarity >= h.similarity
  {
    hide Merged, BestCopies, Passing, Passes;
    var all := Passing(Merged(candidates), req);
    MergedProperties(candidates);
    PassingMembers(Merged(candidates), req);
    PassingBySimilarity(Merged(candidates), req);
    var j :| 0 <= j < |all| && all[j] == h;
    assert forall i :: 0 <= i < n ==> all[..n][i] == all[i];
  }
}
