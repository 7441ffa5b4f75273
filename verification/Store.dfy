/**
 The local SQLite store: the unit table, its domain index and its full-text table, changed together in
 transactions. `fault` numbers the SQL statement of a transaction that fails, if any does.
 */
module Store {
  import opened Prelude
  import opened Units
  import opened Ranking
  import Sequences
  import Scoring

  datatype FtsRow = FtsRow(id: UnitId, insight: Insight)

  datatype StoreError = Closed | NoDomains | AlreadyExists | NotFound | Sql

  datatype QueryOptions = QueryOptions(
    domains: set<string>,
    languages: set<string>,
    frameworks: set<string>,
    pattern: string,
    limit: nat)

  datatype Answer = Answer(units: seq<Unit>, warned: bool)

  /** What `insert` and `update` write for a unit. */
  function Stored(u: Unit): Unit {
    u.(domains := Normalized(u.domains))
  }

  /** Barring faults, `insert` succeeds exactly on these units, `update` exactly on the next. */
  predicate Insertable(units: map<UnitId, Unit>, u: Unit) {
    Normalized(u.domains) != [] && u.id !in units
  }

  predicate Updatable(units: map<UnitId, Unit>, u: Unit) {
    Normalized(u.domains) != [] && u.id in units
  }

  /** What `DELETE FROM knowledge_units_fts WHERE id = ?` leaves. */
  function RowsWithout(rows: seq<FtsRow>, id: UnitId): (r: seq<FtsRow>)
    ensures forall row :: row in r <==> row in rows && row.id != id
  {
    if rows == [] then []
    else RowsWithout(rows[..|rows| - 1], id)
         + (if rows[|rows| - 1].id == id then [] else [rows[|rows| - 1]])
  }

  ghost predicate OneRowPerId(rows: seq<FtsRow>) {
    forall i, j :: 0 <= i < j < |rows| ==> rows[i].id != rows[j].id
  }

  lemma {:induction false} RowsWithoutKeepsIds(rows: seq<FtsRow>, id: UnitId)
    requires OneRowPerId(rows)
    ensures OneRowPerId(RowsWithout(rows, id))
  {
    if rows == [] {
    } else {
      var init := rows[..|rows| - 1];
      RowsWithoutKeepsIds(init, id);
      forall row | row in init ensures row.id != rows[|rows| - 1].id {
        var i :| 0 <= i < |init| && init[i] == row;
        assert rows[i] == row;
      }
    }
  }

  ghost predicate UnitsOk(units: map<UnitId, Unit>) {
    forall id :: id in units ==>
      units[id].id == id && IsNormalized(units[id].domains) && units[id].domains != []
  }

  ghost predicate DomainsOk(units: map<UnitId, Unit>, rows: set<(UnitId, string)>) {
    forall id, d :: (id, d) in rows <==> id in units && d in units[id].domains
  }

  ghost predicate FtsOk(units: map<UnitId, Unit>, rows: seq<FtsRow>) {
    && OneRowPerId(rows)
    && (forall row :: row in rows ==> row.id in units && row.insight == units[row.id].insight)
    && (forall id :: id in units ==> FtsRow(id, units[id].insight) in rows)
  }

  /** The three tables agree. */
  ghost predicate Agree(units: map<UnitId, Unit>, domainRows: set<(UnitId, string)>, ftsRows: seq<FtsRow>) {
    UnitsOk(units) && DomainsOk(units, domainRows) && FtsOk(units, ftsRows)
  }

  /** Every unit can be found through both indexes, under its domains and with its insight, and nothing else can. */
  lemma AgreeIsIndexed(
    units: map<UnitId, Unit>, domainRows: set<(UnitId, string)>, ftsRows: seq<FtsRow>, id: UnitId, d: string)
    requires Agree(units, domainRows, ftsRows)
    ensures (id, d) in domainRows <==> id in units && d in units[id].domains
    ensures (exists i :: 0 <= i < |ftsRows| && ftsRows[i].id == id) <==> id in units
    ensures forall i :: 0 <= i < |ftsRows| && ftsRows[i].id == id ==> ftsRows[i] == FtsRow(id, units[id].insight)
    ensures id in units ==> units[id].domains != [] && units[id].id == id
  {
    if id in units {
      assert FtsRow(id, units[id].insight) in ftsRows;
    }
    forall i | 0 <= i < |ftsRows| && ftsRows[i].id == id
      ensures id in units && ftsRows[i] == FtsRow(id, units[id].insight)
    {
      assert ftsRows[i] in ftsRows;
    }
  }

  /** Removing a unit's rows from all three tables keeps them in agreement. */
  lemma AgreeWithout(units: map<UnitId, Unit>, domainRows: set<(UnitId, string)>, ftsRows: seq<FtsRow>, id: UnitId)
    requires Agree(units, domainRows, ftsRows)
    ensures Agree(units - {id}, (set p | p in domainRows && p.0 != id), RowsWithout(ftsRows, id))
  {
    RowsWithoutKeepsIds(ftsRows, id);
  }

  /** Adding a stored unit's rows to tables that have none for it keeps them in agreement. */
  lemma AgreeWith(units: map<UnitId, Unit>, domainRows: set<(UnitId, string)>, ftsRows: seq<FtsRow>, u: Unit)
    requires Agree(units, domainRows, ftsRows)
    requires u.id !in units && Normalized(u.domains) != []
    ensures Agree(units[u.id := Stored(u)],
                  domainRows + (set d | d in Normalized(u.domains) :: (u.id, d)),
                  ftsRows + [FtsRow(u.id, u.insight)])
  {
    NormalizedProperties(u.domains);
  }

  /** Replacing all rows of a stored unit keeps the tables in agreement. */
  lemma AgreeReplaced(units: map<UnitId, Unit>, domainRows: set<(UnitId, string)>, ftsRows: seq<FtsRow>, u: Unit)
    requires Agree(units, domainRows, ftsRows)
    requires u.id in units && Normalized(u.domains) != []
    ensures Agree(units[u.id := Stored(u)],
                  (set p | p in domainRows && p.0 != u.id) + (set d | d in Normalized(u.domains) :: (u.id, d)),
                  RowsWithout(ftsRows, u.id) + [FtsRow(u.id, u.insight)])
  {
    hide *;
    AgreeWithout(units, domainRows, ftsRows, u.id);
    AgreeWith(units - {u.id}, (set p | p in domainRows && p.0 != u.id), RowsWithout(ftsRows, u.id), u);
    assert (units - {u.id})[u.id := Stored(u)] == units[u.id := Stored(u)];
  }

  ghost predicate SharesDomain(u: Unit, domains: set<string>) {
    exists d :: d in u.domains && d in domains
  }

  /** The candidates of a query, found by scanning every unit; no index is consulted. */
  ghost function Candidates(units: map<UnitId, Unit>, opts: QueryOptions, matched: set<UnitId>): map<UnitId, Unit> {
    map id | id in units && (SharesDomain(units[id], opts.domains) || id in matched) :: units[id]
  }

  function ScoreOf(u: Unit, opts: QueryOptions): real {
    Scoring.WeightedScore(u, opts.domains, opts.languages, opts.frameworks, opts.pattern) * u.evidence.confidence
  }

  /** `us` is a highest-scoring selection of at most `limit` candidates, best first. */
  ghost predicate TopRanked(us: seq<Unit>, candidates: map<UnitId, Unit>, opts: QueryOptions) {
    && |us| == (if |candidates| <= opts.limit then |candidates| else opts.limit)
    && (forall i :: 0 <= i < |us| ==> us[i].id in candidates && us[i] == candidates[us[i].id])
    && (forall i, j :: 0 <= i < j < |us| ==> us[i].id != us[j].id)
    && (forall i, j :: 0 <= i < j < |us| ==> ScoreOf(us[i], opts) >= ScoreOf(us[j], opts))
    && (forall id, j :: id in candidates && candidates[id] !in us && 0 <= j < |us| ==>
         ScoreOf(us[j], opts) >= ScoreOf(candidates[id], opts))
  }

  /** `s` lists every candidate once, with its score. */
  ghost predicate Scores(s: seq<Scored<Unit>>, candidates: map<UnitId, Unit>, opts: QueryOptions) {
    && (forall e :: e in s ==>
         e.item.id in candidates && e.item == candidates[e.item.id] && e.score == ScoreOf(e.item, opts))
    && (forall id :: id in candidates ==> Scored(candidates[id], ScoreOf(candidates[id], opts)) in s)
    && Sequences.Distinct(s) && |s| == |candidates|
  }

  lemma SortedScores(s: seq<Scored<Unit>>, candidates: map<UnitId, Unit>, opts: QueryOptions)
    requires Scores(s, candidates, opts)
    ensures Scores(StableDesc(s), candidates, opts) && Descending(StableDesc(s))
  {
    hide ScoreOf, StableDesc;
    StableDescSorts(s);
    StableDescMembers(s);
  }

  /** The first `limit` of a sorted list of scores are the best candidates. */
  lemma FirstScoresAreTopRanked(t: seq<Scored<Unit>>, candidates: map<UnitId, Unit>, opts: QueryOptions)
    requires UnitsOk(candidates) && Scores(t, candidates, opts) && Descending(t)
    ensures TopRanked(FirstItems(t, opts.limit), candidates, opts)
  {
    hide ScoreOf;
    var us := FirstItems(t, opts.limit);
    forall i, j | 0 <= i < j < |us| ensures us[i].id != us[j].id {
      assert t[i] in t && t[j] in t && t[i] != t[j];
    }
    forall i | 0 <= i < |us| ensures us[i].id in candidates && us[i] == candidates[us[i].id] {
      assert t[i] in t;
    }
    forall id, j | id in candidates && candidates[id] !in us && 0 <= j < |us|
      ensures ScoreOf(us[j], opts) >= ScoreOf(candidates[id], opts)
    {
      assert t[j] in t;
      CutKeepsTheBest(t, opts.limit, Scored(candidates[id], ScoreOf(candidates[id], opts)), j);
    }
    forall i, j | 0 <= i < j < |us| ensures ScoreOf(us[i], opts) >= ScoreOf(us[j], opts) {
      assert t[i] in t && t[j] in t;
    }
  }

  function RelevanceOf(u: Unit, opts: QueryOptions): real {
    Scoring.WeightedScore(u, opts.domains, opts.languages, opts.frameworks, opts.pattern)
  }

  /** Neither less relevant nor less trusted than `w`, and one of the two more. */
  predicate IsBetter(u: Unit, w: Unit, opts: QueryOptions) {
    && u.evidence.confidence >= w.evidence.confidence && RelevanceOf(u, opts) >= RelevanceOf(w, opts)
    && (u.evidence.confidence > w.evidence.confidence || RelevanceOf(u, opts) > RelevanceOf(w, opts))
  }

  /** A better candidate ranks before one of any relevance and trust, and is not left out for it. */
  lemma BetterRanksFirst(us: seq<Unit>, candidates: map<UnitId, Unit>, opts: QueryOptions, u: Unit, j: nat)
    requires TopRanked(us, candidates, opts) && j < |us| && u.id in candidates && candidates[u.id] == u
    requires 0.0 < RelevanceOf(us[j], opts) && 0.0 < us[j].evidence.confidence && IsBetter(u, us[j], opts)
    ensures u in us[..j]
  {
    hide Scoring.WeightedScore, ScoreOf, RelevanceOf, IsBetter;
    BetterScoresMore(u, us[j], opts);
  }

  lemma BetterScoresMore(u: Unit, w: Unit, opts: QueryOptions)
    requires 0.0 < RelevanceOf(w, opts) && 0.0 < w.evidence.confidence && IsBetter(u, w, opts)
    ensures ScoreOf(u, opts) > ScoreOf(w, opts)
  {
    hide Scoring.WeightedScore;
    var r, c, r', c' := RelevanceOf(u, opts), u.evidence.confidence, RelevanceOf(w, opts), w.evidence.confidence;
    if c > c' {
      assert r' * c > r' * c';
      assert r * c >= r' * c;
    } else {
      assert r * c > r' * c;
    }
  }

  /** An answer lists each unit once, and all candidates when it is not full. */
  lemma AnsweredUnits(us: seq<Unit>, units: map<UnitId, Unit>, opts: QueryOptions, matched: set<UnitId>)
    requires TopRanked(us, Candidates(units, opts, matched), opts)
    ensures |us| <= opts.limit && forall i, j :: 0 <= i < j < |us| ==> us[i].id != us[j].id
    ensures forall u :: u in us ==>
              u.id in units && units[u.id] == u && (SharesDomain(u, opts.domains) || u.id in matched)
    ensures |us| < opts.limit ==>
              forall id :: id in units && (SharesDomain(units[id], opts.domains) || id in matched) ==> units[id] in us
  {
    hide ScoreOf, SharesDomain;
    var candidates := Candidates(units, opts, matched);
    var ids := seq(|us|, i requires 0 <= i < |us| => us[i].id);
    if |us| < opts.limit {
      Sequences.DistinctCardinality(ids);
      var listed := set id | id in ids;
      forall id | id in candidates ensures candidates[id] in us {
        if id !in listed {
          Sequences.SubsetSize(listed + {id}, candidates.Keys);
        }
        var i :| 0 <= i < |us| && ids[i] == id;
        assert us[i] == candidates[id];
      }
      forall id | id in units && (SharesDomain(units[id], opts.domains) || id in matched) ensures units[id] in us {
        assert id in candidates;
      }
    }
  }

  method Score(u: Unit, opts: QueryOptions) returns (score: real)
    ensures score == ScoreOf(u, opts)
  {
    hide Scoring.WeightedScore;
    var domains := Sequences.Collect(opts.domains);
    var languages := Sequences.Collect(opts.languages);
    var frameworks := Sequences.Collect(opts.frameworks);
    assert Scoring.Elements(domains) == opts.domains;
    assert Scoring.Elements(languages) == opts.languages;
    assert Scoring.Elements(frameworks) == opts.frameworks;
    var relevance := Scoring.Relevance(u, domains, languages, frameworks, opts.pattern);
    score := relevance * u.evidence.confidence;
  }

  /** One scored entry per candidate. */
  method ScoreCandidates(candidates: map<UnitId, Unit>, opts: QueryOptions) returns (s: seq<Scored<Unit>>)
    requires UnitsOk(candidates)
    ensures Scores(s, candidates, opts)
  {
    hide ScoreOf, IsNormalized;
    s := [];
    var rest := candidates.Keys;
    while rest != {}
      invariant rest <= candidates.Keys && |s| + |rest| == |candidates.Keys|
      invariant forall e :: e in s ==>
        e.item.id in candidates.Keys - rest && e.item == candidates[e.item.id] && e.score == ScoreOf(e.item, opts)
      invariant forall id :: id in candidates.Keys - rest ==>
        Scored(candidates[id], ScoreOf(candidates[id], opts)) in s
      invariant Sequences.Distinct(s)
      decreases rest
    {
      var id :| id in rest;
      var score := Score(candidates[id], opts);
      assert Scored(candidates[id], score) !in s;
      s := s + [Scored(candidates[id], score)];
      rest := rest - {id};
    }
  }

  class LocalStore {
    var closed: bool
    var units: map<UnitId, Unit>
    var domainRows: set<(UnitId, string)>
    var ftsRows: seq<FtsRow>

    ghost predicate Coherent()
      reads this
    {
      Agree(units, domainRows, ftsRows)
    }

    constructor ()
      ensures Coherent() && units == map[] && !closed
    {
      closed, units, domainRows, ftsRows := false, map[], {}, [];
    }

    method Close()
      modifies `closed
      ensures closed
    {
      closed := true;
    }

    method Get(id: UnitId) returns (r: Result<Option<Unit>, StoreError>)
      ensures closed ==> r == Err(Closed)
      ensures !closed ==> r == Ok(if id in units then Some(units[id]) else None)
    {
      if closed {
        return Err(Closed);
      }
      r := Ok(if id in units then Some(units[id]) else None);
    }

    method All() returns (r: Result<seq<Unit>, StoreError>)
      requires Coherent()
      ensures closed ==> r == Err(Closed)
      ensures !closed ==>
        && r.Ok? && |r.value| == |units.Keys|
        && (forall i, j :: 0 <= i < j < |r.value| ==> r.value[i].id != r.value[j].id)
        && (forall u: Unit :: u in r.value <==> u.id in units && units[u.id] == u)
    {
      hide DomainsOk, FtsOk, IsNormalized;
      if closed {
        return Err(Closed);
      }
      var us: seq<Unit> := [];
      var rest := units.Keys;
      while rest != {}
        invariant rest <= units.Keys && |us| + |rest| == |units.Keys|
        invariant forall u :: u in us ==> u.id in units.Keys - rest && units[u.id] == u
        invariant forall id :: id in units.Keys - rest ==> units[id] in us
        invariant forall i, j :: 0 <= i < j < |us| ==> us[i].id != us[j].id
        decreases rest
      {
        var id :| id in rest;
        rest := rest - {id};
        us := us + [units[id]];
      }
      return Ok(us);
    }

    /** Writes the index rows of a unit inside a transaction; statement `first + k` writes domain `k`. */
    method InsertDomains(id: UnitId, domains: seq<string>, first: nat, fault: int) returns (ok: bool)
      modifies `domainRows
      ensures ok <==> && !(first <= fault < first + |domains|)
                      && Sequences.Distinct(domains)
                      && forall d :: d in domains ==> (id, d) !in old(domainRows)
      ensures ok ==> domainRows == old(domainRows) + set d | d in domains :: (id, d)
    {
      for k := 0 to |domains|
        invariant !(first <= fault < first + k)
        invariant Sequences.Distinct(domains[..k])
        invariant forall d :: d in domains[..k] ==> (id, d) !in old(domainRows)
        invariant domainRows == old(domainRows) + set d | d in domains[..k] :: (id, d)
      {
        if fault == first + k {
          return false;
        }
        if (id, domains[k]) in domainRows {
          if (id, domains[k]) !in old(domainRows) {
            var i :| 0 <= i < k && domains[i] == domains[k];
          }
          return false;
        }
        assert domains[..k + 1] == domains[..k] + [domains[k]];
        domainRows := domainRows + {(id, domains[k])};
      }
      assert domains[..|domains|] == domains;
      return true;
    }

    /** Statements: begin, unit row, one per domain, full-text row, commit. */
    method Insert(u: Unit, fault: int) returns (r: Result<(), StoreError>)
      requires Coherent()
      modifies this
      ensures Coherent() && closed == old(closed)
      ensures r.Ok? <==> && !closed && Insertable(old(units), u)
                         && !(0 <= fault <= |Normalized(u.domains)| + 3)
      ensures units == if r.Ok? then old(units)[u.id := Stored(u)] else old(units)
      ensures closed <==> r == Err(Closed)
      ensures r == Err(NoDomains) <==> !closed && Normalized(u.domains) == []
      ensures r == Err(AlreadyExists) <==>
        !closed && Normalized(u.domains) != [] && fault != 0 && fault != 1 && u.id in old(units)
    {
      hide UnitsOk, FtsOk;
      if closed {
        return Err(Closed);
      }
      var domains := NormalizeDomains(u.domains);
      if |domains| == 0 {
        return Err(NoDomains);
      }
      var stored := u.(domains := domains);
      if fault == 0 {
        return Err(Sql);
      }
      var units0, domainRows0, ftsRows0 := units, domainRows, ftsRows;
      if fault == 1 {
        return Err(Sql);
      }
      if u.id in units {
        return Err(AlreadyExists);
      }
      units := units[u.id := stored];
      var indexed := InsertDomains(u.id, domains, 2, fault);
      if !indexed || fault == |domains| + 2 {
        units, domainRows, ftsRows := units0, domainRows0, ftsRows0;
        return Err(Sql);
      }
      ftsRows := ftsRows + [FtsRow(u.id, stored.insight)];
      if fault == |domains| + 3 {
        units, domainRows, ftsRows := units0, domainRows0, ftsRows0;
        return Err(Sql);
      }
      AgreeWith(units0, domainRows0, ftsRows0, u);
      return Ok(());
    }

    /** The statements of an update that follow the write of the unit row. */
    method ReplaceIndexRows(stored: Unit, fault: int) returns (ok: bool)
      requires Sequences.Distinct(stored.domains)
      modifies `domainRows, `ftsRows
      ensures ok <==> !(2 <= fault <= |stored.domains| + 5)
      ensures ok ==>
        && domainRows == (set p | p in old(domainRows) && p.0 != stored.id)
                         + (set d | d in stored.domains :: (stored.id, d))
        && ftsRows == RowsWithout(old(ftsRows), stored.id) + [FtsRow(stored.id, stored.insight)]
    {
      if fault == 2 {
        return false;
      }
      domainRows := set p | p in domainRows && p.0 != stored.id;
      var indexed := InsertDomains(stored.id, stored.domains, 3, fault);
      if !indexed || fault == |stored.domains| + 3 {
        return false;
      }
      ftsRows := RowsWithout(ftsRows, stored.id);
      if fault == |stored.domains| + 4 {
        return false;
      }
      ftsRows := ftsRows + [FtsRow(stored.id, stored.insight)];
      return fault != |stored.domains| + 5;
    }

    /** Statements: begin, unit row, clear domains, one per domain, clear full text, full-text row, commit. */
    method Update(u: Unit, fault: int) returns (r: Result<(), StoreError>)
      requires Coherent()
      modifies this
      ensures Coherent() && closed == old(closed)
      ensures r.Ok? <==> && !closed && Updatable(old(units), u)
                         && !(0 <= fault <= |Normalized(u.domains)| + 5)
      ensures units == if r.Ok? then old(units)[u.id := Stored(u)] else old(units)
      ensures closed <==> r == Err(Closed)
      ensures r == Err(NoDomains) <==> !closed && Normalized(u.domains) == []
      ensures r == Err(NotFound) <==>
        !closed && Normalized(u.domains) != [] && fault != 0 && fault != 1 && u.id !in old(units)
    {
      hide Agree, Normalized;
      if closed {
        return Err(Closed);
      }
      var domains := NormalizeDomains(u.domains);
      if |domains| == 0 {
        return Err(NoDomains);
      }
      var stored := u.(domains := domains);
      if fault == 0 || fault == 1 {
        return Err(Sql);
      }
      if u.id !in units {
        return Err(NotFound);
      }
      var units0, domainRows0, ftsRows0 := units, domainRows, ftsRows;
      units := units[u.id := stored];
      var replaced := ReplaceIndexRows(stored, fault);
      if !replaced {
        units, domainRows, ftsRows := units0, domainRows0, ftsRows0;
        return Err(Sql);
      }
      AgreeReplaced(units0, domainRows0, ftsRows0, u);
      return Ok(());
    }

    /** Statements: begin, full-text rows, unit row with its cascade to the index, commit. */
    method Delete(id: UnitId, fault: int) returns (r: Result<(), StoreError>)
      requires Coherent()
      modifies this
      ensures Coherent() && closed == old(closed)
      ensures r.Ok? <==> !closed && id in old(units) && !(0 <= fault <= 3)
      ensures units == if r.Ok? then old(units) - {id} else old(units)
      ensures closed <==> r == Err(Closed)
      ensures r == Err(NotFound) <==> !closed && !(0 <= fault <= 2) && id !in old(units)
    {
      hide Agree;
      if closed {
        return Err(Closed);
      }
      if fault == 0 || fault == 1 {
        return Err(Sql);
      }
      var units0, domainRows0, ftsRows0 := units, domainRows, ftsRows;
      ftsRows := RowsWithout(ftsRows, id);
      if fault == 2 {
        ftsRows := ftsRows0;
        return Err(Sql);
      }
      if id !in units {
        ftsRows := ftsRows0;
        return Err(NotFound);
      }
      units := units - {id};
      domainRows := set p | p in domainRows && p.0 != id;
      if fault == 3 {
        units, domainRows, ftsRows := units0, domainRows0, ftsRows0;
        return Err(Sql);
      }
      AgreeWithout(units0, domainRows0, ftsRows0, id);
      return Ok(());
    }

    /** The units reached through the domain index and through the full-text answer. */
    method CollectCandidates(opts: QueryOptions, matched: set<UnitId>) returns (candidates: map<UnitId, Unit>)
      requires Coherent()
      ensures candidates == Candidates(units, opts, matched)
    {
      candidates := map[];
      var rows := domainRows;
      while rows != {}
        invariant rows <= domainRows
        invariant forall id :: id in candidates ==> id in units && candidates[id] == units[id]
        invariant forall id :: id in candidates ==> SharesDomain(units[id], opts.domains)
        invariant forall p :: p in domainRows - rows && p.1 in opts.domains ==> p.0 in candidates
        decreases rows
      {
        var p :| p in rows;
        rows := rows - {p};
        if p.1 in opts.domains {
          assert (p.0, p.1) in domainRows;
          assert p.1 in units[p.0].domains;
          candidates := candidates[p.0 := units[p.0]];
        }
      }
      forall id | id in units && SharesDomain(units[id], opts.domains) ensures id in candidates {
        var d :| d in units[id].domains && d in opts.domains;
        assert (id, d) in domainRows;
      }
      ghost var byDomain := candidates.Keys;
      var hits := matched;
      while hits != {}
        invariant hits <= matched
        invariant forall id :: id in candidates ==> id in units && candidates[id] == units[id]
        invariant forall id :: id in candidates <==> id in byDomain || (id in units && id in matched - hits)
        decreases hits
      {
        var id :| id in hits;
        hits := hits - {id};
        if id in units {
          candidates := candidates[id := units[id]];
        }
      }
    }

    /**
     `matched` holds the ids the full-text statement yielded before it ended; `ftsFailed` tells whether it
     ended with an error.
     */
    method Query(opts: QueryOptions, matched: set<UnitId>, ftsFailed: bool) returns (r: Result<Answer, StoreError>)
      requires Coherent()
      ensures closed ==> r == Err(Closed)
      ensures !closed ==> r.Ok?
      ensures !closed && opts.domains == {} ==> r.value == Answer([], false)
      ensures !closed && opts.domains != {} ==>
        r.value.warned == ftsFailed && TopRanked(r.value.units, Candidates(units, opts, matched), opts)
      ensures !closed && opts.domains != {} ==>
        && |r.value.units| <= opts.limit
        && (forall i, j :: 0 <= i < j < |r.value.units| ==> r.value.units[i].id != r.value.units[j].id)
        && (forall u :: u in r.value.units ==>
              u.id in units && units[u.id] == u && (SharesDomain(u, opts.domains) || u.id in matched))
        && (|r.value.units| < opts.limit ==>
              forall id :: id in units && (SharesDomain(units[id], opts.domains) || id in matched) ==>
                units[id] in r.value.units)
    {
      hide TopRanked, Scores, StableDesc, FtsOk, DomainsOk, IsNormalized, SharesDomain;
      if closed {
        return Err(Closed);
      }
      if opts.domains == {} {
        return Ok(Answer([], false));
      }
      var candidates := CollectCandidates(opts, matched);
      var scored := ScoreCandidates(candidates, opts);
      var results := new Scored<Unit>[|scored|](i requires 0 <= i < |scored| => scored[i]);
      assert results[..] == scored;
      SortDescending(results);
      SortedScores(scored, candidates, opts);
      FirstScoresAreTopRanked(results[..], candidates, opts);
      r := Ok(Answer(FirstItems(results[..], opts.limit), ftsFailed));
      AnsweredUnits(r.value.units, units, opts, matched);
    }
  }
}
