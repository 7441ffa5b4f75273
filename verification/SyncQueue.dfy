/** The retry queue of operations that the L2 has not acknowledged. */
module SyncQueue {
  import opened Prelude
  import opened Sequences

  datatype RowId = RowId(n: nat)

  datatype Kind = SendMessage | Reply | CloseThread | Unknown

  /** An operation with its client-generated ids; the L2 treats a repeat of one it has as done. */
  datatype Operation = Operation(kind: Kind, thread: string, message: string)

  /** `wellFormed` tells whether the stored payload still parses. */
  datatype Row = Row(op: Operation, wellFormed: bool, createdAt: int, attempts: nat, lastError: Option<string>)

  const MAX_ATTEMPTS: nat := 10
  const DRAIN_LIMIT: nat := 50

  type Rows = map<RowId, Row>

  predicate IsActive(r: Row) {
    r.attempts < MAX_ATTEMPTS
  }

  function Active(rows: Rows): set<RowId> {
    set id | id in rows && IsActive(rows[id])
  }

  /** Rows that are posted when their turn comes; others only gain an attempt. */
  predicate IsPostable(r: Row) {
    r.wellFormed && r.op.kind != Unknown
  }

  /** The drain order: fewest attempts first, oldest first among those. */
  predicate Before(a: Row, b: Row) {
    a.attempts < b.attempts || (a.attempts == b.attempts && a.createdAt <= b.createdAt)
  }

  predicate IsBump(before: Row, after: Row) {
    after.lastError.Some? && after == before.(attempts := before.attempts + 1, lastError := after.lastError)
  }

  function Min(a: nat, b: nat): nat {
    if a <= b then a else b
  }

  /** `l` lists the first `limit` rows in drain order. */
  ghost predicate IsListing(l: seq<RowId>, rows: Rows, limit: nat) {
    && Distinct(l) && |l| == Min(limit, |rows|)
    && (forall id :: id in l ==> id in rows)
    && (forall i, j :: 0 <= i < j < |l| ==> Before(rows[l[i]], rows[l[j]]))
    && (forall id, j :: id in rows && id !in l && 0 <= j < |l| ==> Before(rows[l[j]], rows[id]))
  }

  /**
   One drain pass from `before` to `after`: it attempts the `attempted` rows, as many of those not stuck as fit,
   in drain order; each is acknowledged and gone or one attempt older. All other rows are as they were; rows
   that are new arrived meanwhile and have ids from `firstNew` on.
   */
  ghost predicate IsPass(before: Rows, after: Rows, attempted: set<RowId>, firstNew: nat) {
    && attempted <= Active(before) && |attempted| == Min(DRAIN_LIMIT, |Active(before)|)
    && (forall a, b :: a in attempted && b in Active(before) && b !in attempted ==> Before(before[a], before[b]))
    && (forall id :: id in before && id !in attempted ==> id in after && after[id] == before[id])
    && (forall id :: id in attempted ==> if id in after then IsBump(before[id], after[id]) else IsPostable(before[id]))
    && (forall id :: id in after && id !in before ==> id.n >= firstNew && after[id].attempts <= 1)
  }

  // ---- Which rows a listing attempts ----

  /** The rows of the listing that are not stuck. */
  function Attempted(l: seq<RowId>, rows: Rows): set<RowId> {
    set id | id in l && id in rows && IsActive(rows[id])
  }

  lemma {:induction false} ActiveSize(l: seq<RowId>, rows: Rows)
    requires Distinct(l)
    requires forall id :: id in l ==> id in rows && IsActive(rows[id])
    ensures |Attempted(l, rows)| == |l|
  {
    DistinctCardinality(l);
    assert Attempted(l, rows) == set id | id in l;
  }

  /** Stuck rows come last in the listing, so they never take the place of one that can be retried. */
  lemma ListingAttemptsTheFirst(l: seq<RowId>, rows: Rows)
    requires IsListing(l, rows, DRAIN_LIMIT)
    ensures Attempted(l, rows) <= Active(rows)
    ensures |Attempted(l, rows)| == Min(DRAIN_LIMIT, |Active(rows)|)
    ensures forall a, b :: a in Attempted(l, rows) && b in Active(rows) && b !in Attempted(l, rows) ==>
              Before(rows[a], rows[b])
  {
    var listed := set id | id in l;
    DistinctCardinality(l);
    forall a, b | a in Attempted(l, rows) && b in Active(rows) && b !in Attempted(l, rows)
      ensures Before(rows[a], rows[b])
    {
      var j :| 0 <= j < |l| && l[j] == a;
      assert b !in l;
    }
    if exists id :: id in Active(rows) && id !in l {
      var id :| id in Active(rows) && id !in l;
      assert forall j :: 0 <= j < |l| ==> Before(rows[l[j]], rows[id]);
      ActiveSize(l, rows);
      assert Attempted(l, rows) <= Active(rows) - {id};
      SubsetSize(Attempted(l, rows), Active(rows) - {id});
      if |l| < DRAIN_LIMIT {
        assert listed <= rows.Keys - {id};
        SubsetSize(listed, rows.Keys - {id});
      }
    } else {
      assert Attempted(l, rows) == Active(rows);
      SubsetSize(Attempted(l, rows), listed);
    }
  }

  /** Of two rows with as many attempts the older one is listed first: a message goes out before its later replies. */
  lemma OlderIsListedFirst(l: seq<RowId>, rows: Rows, limit: nat, a: RowId, j: nat)
    requires IsListing(l, rows, limit) && j < |l| && a in rows
    requires rows[a].attempts == rows[l[j]].attempts && rows[a].createdAt < rows[l[j]].createdAt
    ensures a in l[..j]
  {
  }

  /** A row with fewer attempts is listed before one with more. */
  lemma FewerAttemptsFirst(l: seq<RowId>, rows: Rows, limit: nat, a: RowId, j: nat)
    requires IsListing(l, rows, limit) && j < |l| && a in rows
    requires rows[a].attempts < rows[l[j]].attempts
    ensures a in l[..j]
  {
  }

  /** A pass takes no row with ten attempts or more, and fifty of the others, or all if there are no more. */
  lemma PassTakes(before: Rows, after: Rows, attempted: set<RowId>, firstNew: nat)
    requires IsPass(before, after, attempted, firstNew)
    ensures |attempted| <= 50 && forall id :: id in attempted ==> id in before && before[id].attempts < 10
    ensures |attempted| < 50 ==> forall id :: id in before && before[id].attempts < 10 ==> id in attempted
    ensures forall id :: id in before && before[id].attempts >= 10 ==> id in after && after[id] == before[id]
    ensures forall id :: id in attempted && id in after ==>
              after[id].attempts == before[id].attempts + 1 && after[id].op == before[id].op
  {
    if |attempted| < 50 && attempted != Active(before) {
      var id :| id in Active(before) && id !in attempted;
      SubsetSize(attempted, Active(before) - {id});
    }
  }

  // ---- Progress ----

  function LeftTo(rows: Rows, id: RowId): nat {
    if id in rows && IsActive(rows[id]) then MAX_ATTEMPTS - rows[id].attempts else 0
  }

  /** The attempts left to the rows with ids below `n`. */
  function AttemptsLeft(rows: Rows, n: nat): nat {
    if n == 0 then 0 else AttemptsLeft(rows, n - 1) + LeftTo(rows, RowId(n - 1))
  }

  lemma PassUsesAttempt(before: Rows, after: Rows, attempted: set<RowId>, firstNew: nat, id: RowId)
    requires IsPass(before, after, attempted, firstNew) && id.n < firstNew
    ensures LeftTo(after, id) + (if id in attempted then 1 else 0) <= LeftTo(before, id)
  {
  }

  lemma {:induction false} PassUsesAttempts(before: Rows, after: Rows, attempted: set<RowId>, firstNew: nat, n: nat)
    requires IsPass(before, after, attempted, firstNew) && n <= firstNew
    ensures AttemptsLeft(after, n) + |set id | id in attempted && id.n < n| <= AttemptsLeft(before, n)
  {
    hide IsPass, LeftTo;
    var upTo := set id | id in attempted && id.n < n;
    if n == 0 {
      assert upTo == {};
    } else {
      PassUsesAttempts(before, after, attempted, firstNew, n - 1);
      PassUsesAttempt(before, after, attempted, firstNew, RowId(n - 1));
      var below := set id | id in attempted && id.n < n - 1;
      assert upTo == below + (if RowId(n - 1) in attempted then {RowId(n - 1)} else {});
    }
  }

  /** While any row can be retried, a pass without arrivals uses up at least one attempt for each row it takes. */
  lemma PassProgress(before: Rows, after: Rows, attempted: set<RowId>, firstNew: nat)
    requires IsPass(before, after, attempted, firstNew)
    requires forall id :: id in before ==> id.n < firstNew
    ensures AttemptsLeft(after, firstNew) + Min(DRAIN_LIMIT, |Active(before)|) <= AttemptsLeft(before, firstNew)
    ensures Active(before) != {} ==> AttemptsLeft(after, firstNew) < AttemptsLeft(before, firstNew)
  {
    PassUsesAttempts(before, after, attempted, firstNew, firstNew);
    assert attempted == set id | id in attempted && id.n < firstNew;
  }

  /** Passes without arrivals leave nothing but stuck rows once they outnumber the attempts there were. */
  lemma {:induction false} PassesEnd(rs: seq<Rows>, attempted: seq<set<RowId>>, firstNew: nat)
    requires |rs| == |attempted| + 1
    requires forall i :: 0 <= i < |attempted| ==> IsPass(rs[i], rs[i + 1], attempted[i], firstNew)
    requires forall i, id :: 0 <= i < |rs| && id in rs[i] ==> id.n < firstNew
    requires AttemptsLeft(rs[0], firstNew) <= |attempted|
    ensures Active(rs[|attempted|]) == {}
  {
    hide IsPass, Active, AttemptsLeft;
    PassesUseAttempts(rs, attempted, firstNew, |attempted|);
    var last := rs[|attempted|];
    if Active(last) == {} {
    } else {
      NoAttemptsLeft(last, firstNew);
    }
  }

  lemma {:induction false} PassesUseAttempts(rs: seq<Rows>, attempted: seq<set<RowId>>, firstNew: nat, n: nat)
    requires |rs| == |attempted| + 1 && n <= |attempted|
    requires forall i :: 0 <= i < |attempted| ==> IsPass(rs[i], rs[i + 1], attempted[i], firstNew)
    requires forall i, id :: 0 <= i < |rs| && id in rs[i] ==> id.n < firstNew
    ensures Active(rs[n]) == {} || AttemptsLeft(rs[n], firstNew) + n <= AttemptsLeft(rs[0], firstNew)
  {
    hide IsPass, Active, AttemptsLeft;
    if n == 0 {
    } else {
      PassesUseAttempts(rs, attempted, firstNew, n - 1);
      PassProgress(rs[n - 1], rs[n], attempted[n - 1], firstNew);
      if Active(rs[n - 1]) == {} {
        StuckStayStuck(rs[n - 1], rs[n], attempted[n - 1], firstNew);
      }
    }
  }

  lemma StuckStayStuck(before: Rows, after: Rows, attempted: set<RowId>, firstNew: nat)
    requires IsPass(before, after, attempted, firstNew) && Active(before) == {}
    requires forall id :: id in after ==> id.n < firstNew
    ensures Active(after) == {} && after == before
  {
    assert attempted == {};
    forall id | id in after ensures id in before && after[id] == before[id] {
    }
    forall id | id in after ensures !IsActive(after[id]) {
      assert id !in Active(before);
    }
  }

  lemma {:induction false} NoAttemptsLeft(rows: Rows, n: nat)
    requires forall id :: id in rows ==> id.n < n
    ensures Active(rows) != {} ==> AttemptsLeft(rows, n) > 0
  {
    if Active(rows) == {} {
    } else {
      var id :| id in Active(rows);
      LeftAtLeast(rows, n, id);
    }
  }

  lemma {:induction false} LeftAtLeast(rows: Rows, n: nat, id: RowId)
    requires id.n < n && id in Active(rows)
    ensures AttemptsLeft(rows, n) >= MAX_ATTEMPTS - rows[id].attempts > 0
  {
    if id.n < n - 1 {
      LeftAtLeast(rows, n - 1, id);
    }
  }

  /** A row whose payload does not parse is retried like any other until its attempts are used up. */
  lemma MalformedRowIsRetried(before: Rows, after: Rows, attempted: set<RowId>, firstNew: nat, id: RowId)
    requires IsPass(before, after, attempted, firstNew) && id in attempted && !before[id].wellFormed
    ensures id in after && after[id].attempts == before[id].attempts + 1
    ensures id in Active(after) <==> before[id].attempts + 1 < MAX_ATTEMPTS
  {
  }

  // ---- The queue ----

  datatype Answer = Accepted | ReplyLost | Failed

  /** A post, the row it was a retry of, if any, and whether it was acknowledged. */
  datatype Posted = Posted(op: Operation, row: Option<RowId>, acked: bool)

  /** The remote L2: what it has accepted, under ids that make a repeat harmless. */
  class L2 {
    var accepted: set<Operation>
    /** Every post made so far, in order. */
    ghost var posts: seq<Posted>

    /** A post may fail before or after the L2 has taken the operation. */
    method Post(op: Operation, ghost row: Option<RowId>) returns (ok: bool)
      modifies this
      ensures accepted == old(accepted) || accepted == old(accepted) + {op}
      ensures ok ==> op in accepted
      ensures posts == old(posts) + [Posted(op, row, ok)]
    {
      var answer: Answer := *;
      if answer != Failed {
        accepted := accepted + {op};
      }
      ok := answer == Accepted;
      posts := posts + [Posted(op, row, ok)];
    }
  }

  function TimesPosted(posts: seq<Posted>, id: RowId): nat {
    if posts == [] then 0
    else TimesPosted(posts[..|posts| - 1], id) + (if posts[|posts| - 1].row == Some(id) then 1 else 0)
  }

  /**
   `posts` holds exactly one retry of each postable row of `done` and no other retry; each carries the row's
   operation, and the row is gone exactly when its retry was acknowledged.
   */
  ghost predicate PostedOnce(posts: seq<Posted>, before: Rows, rows: Rows, done: set<RowId>) {
    && (forall id :: TimesPosted(posts, id) == if id in done && id in before && IsPostable(before[id]) then 1 else 0)
    && (forall p :: p in posts && p.row.Some? ==>
          && p.row.value in done && p.row.value in before && p.op == before[p.row.value].op
          && (p.acked <==> p.row.value !in rows))
  }

  /** Each readable row of one of the three known kinds is posted, and no other. */
  lemma KnownKindsArePosted(posts: seq<Posted>, before: Rows, rows: Rows, done: set<RowId>)
    requires PostedOnce(posts, before, rows, done)
    ensures forall id :: id in done && id in before ==>
              TimesPosted(posts, id) ==
              if before[id].wellFormed && before[id].op.kind in {SendMessage, Reply, CloseThread} then 1 else 0
  {
  }

  lemma NothingPosted(before: Rows, rows: Rows)
    ensures PostedOnce([], before, rows, {})
  {
  }

  lemma TimesOneMore(posts: seq<Posted>, p: Posted, id: RowId)
    ensures TimesPosted(posts + [p], id) == TimesPosted(posts, id) + (if p.row == Some(id) then 1 else 0)
  {
    assert (posts + [p])[..|posts|] == posts;
  }

  /** Posts of other handlers are no retries. */
  lemma {:induction false} OthersPosted(
    posts: seq<Posted>, more: seq<Posted>, before: Rows, rows: Rows, done: set<RowId>)
    requires PostedOnce(posts, before, rows, done) && forall p :: p in more ==> p.row.None?
    ensures PostedOnce(posts + more, before, rows, done)
  {
    hide IsPostable;
    if more == [] {
      assert posts + more == posts;
    } else {
      var init, last := more[..|more| - 1], more[|more| - 1];
      OthersPosted(posts, init, before, rows, done);
      assert posts + more == posts + init + [last];
      forall id ensures TimesPosted(posts + more, id) == TimesPosted(posts + init, id) {
        TimesOneMore(posts + init, last, id);
      }
    }
  }

  lemma OneMorePosted(posts: seq<Posted>, p: Posted, before: Rows, rows: Rows, rows': Rows, done: set<RowId>, id: RowId)
    requires PostedOnce(posts, before, rows, done) && id in before && id !in done && IsPostable(before[id])
    requires p == Posted(before[id].op, Some(id), id !in rows')
    requires forall k :: k in done ==> (k in rows <==> k in rows')
    ensures PostedOnce(posts + [p], before, rows', done + {id})
  {
    hide IsPostable;
    forall k ensures TimesPosted(posts + [p], k) == TimesPosted(posts, k) + (if k == id then 1 else 0) {
      TimesOneMore(posts, p, k);
    }
  }

  lemma OneNotPosted(posts: seq<Posted>, before: Rows, rows: Rows, rows': Rows, done: set<RowId>, id: RowId)
    requires PostedOnce(posts, before, rows, done) && id in before && id !in done && !IsPostable(before[id])
    requires forall k :: k in done ==> (k in rows <==> k in rows')
    ensures PostedOnce(posts, before, rows', done + {id})
  {
    hide IsPostable;
  }

  /** Row ids are below `next` and no row exceeds the maximum of attempts. */
  ghost predicate RowsOk(rows: Rows, next: nat) {
    forall id :: id in rows ==> id.n < next && rows[id].attempts <= MAX_ATTEMPTS
  }

  lemma RowsOkAfterDelete(rows: Rows, next: nat, id: RowId)
    requires RowsOk(rows, next)
    ensures RowsOk(rows - {id}, next)
  {
  }

  lemma RowsOkAfterBump(rows: Rows, next: nat, id: RowId, r: Row)
    requires RowsOk(rows, next) && id in rows && IsActive(rows[id]) && IsBump(rows[id], r)
    ensures RowsOk(rows[id := r], next)
  {
  }

  lemma IdsBelow(rows: Rows, next: nat)
    requires RowsOk(rows, next)
    ensures forall id :: id in rows ==> id.n < next
  {
  }

  function Bumped(r: Row, error: string): Row {
    r.(attempts := r.attempts + 1, lastError := Some(error))
  }

  lemma BumpedRow(r: Row, error: string)
    ensures IsBump(r, Bumped(r, error))
  {
  }

  /** Every submitted operation is accepted by the L2 or queued. */
  ghost predicate Covered(submitted: set<Operation>, accepted: set<Operation>, rows: Rows) {
    forall op :: op in submitted ==> op in accepted || Queued(op, rows)
  }

  ghost predicate Queued(op: Operation, rows: Rows) {
    exists id :: id in rows && rows[id].op == op
  }

  lemma DeleteKeepsCovered(submitted: set<Operation>, accepted: set<Operation>, rows: Rows, id: RowId)
    requires Covered(submitted, accepted, rows) && id in rows && rows[id].op in accepted
    ensures Covered(submitted, accepted, rows - {id})
  {
    forall op | op in submitted && op !in accepted ensures Queued(op, rows - {id}) {
      var k :| k in rows && rows[k].op == op;
      assert k in rows - {id};
    }
  }

  lemma BumpKeepsCovered(submitted: set<Operation>, accepted: set<Operation>, rows: Rows, id: RowId, r: Row)
    requires Covered(submitted, accepted, rows) && (id in rows ==> r.op == rows[id].op)
    ensures Covered(submitted, accepted, rows[id := r])
    ensures Covered(submitted + {r.op}, accepted, rows[id := r])
  {
    assert id in rows[id := r] && rows[id := r][id].op == r.op;
    forall op | op in submitted && op !in accepted ensures Queued(op, rows[id := r]) {
      var k :| k in rows && rows[k].op == op;
      assert k in rows[id := r] && rows[id := r][k].op == op;
    }
  }

  lemma PostKeepsCovered(
    submitted: set<Operation>, accepted: set<Operation>, accepted': set<Operation>, op: Operation, rows: Rows)
    requires Covered(submitted, accepted, rows) && accepted <= accepted'
    ensures Covered(submitted, accepted', rows)
    ensures op in accepted' ==> Covered(submitted + {op}, accepted', rows)
  {
  }

  /** `rows` is a state of a pass from `before` after the rows of `done` have been attempted. */
  ghost predicate IsPartialPass(before: Rows, rows: Rows, done: set<RowId>, firstNew: nat) {
    && (forall id :: id in before && id !in done ==> id in rows && rows[id] == before[id])
    && (forall id :: id in done ==>
          id in before && if id in rows then IsBump(before[id], rows[id]) else IsPostable(before[id]))
    && (forall id :: id in rows && id !in before ==> id.n >= firstNew && rows[id].attempts <= 1)
  }

  lemma PartialStart(rows: Rows, firstNew: nat)
    ensures IsPartialPass(rows, rows, {}, firstNew)
  {
  }

  /** Arrivals do not disturb a pass. */
  lemma PartialAwait(before: Rows, rows: Rows, rows': Rows, done: set<RowId>, firstNew: nat)
    requires IsPartialPass(before, rows, done, firstNew)
    requires forall id :: id in rows ==> id in rows' && rows'[id] == rows[id]
    requires forall id :: id in rows' && id !in rows ==> id !in before && id.n >= firstNew && rows'[id].attempts <= 1
    ensures IsPartialPass(before, rows', done, firstNew)
    ensures Gone(done, rows') == Gone(done, rows)
  {
    hide IsPostable, IsBump;
    assert done - rows'.Keys == done - rows.Keys;
  }

  lemma DoneIsOld(before: Rows, rows: Rows, rows': Rows, done: set<RowId>, firstNew: nat)
    requires IsPartialPass(before, rows, done, firstNew) && RowsOk(before, firstNew)
    requires forall id :: id in rows ==> id in rows' && rows'[id] == rows[id]
    requires forall id :: id in rows' && id !in rows ==> id.n >= firstNew
    ensures forall k :: k in done ==> (k in rows <==> k in rows')
  {
  }

  lemma PartialRow(before: Rows, rows: Rows, done: set<RowId>, firstNew: nat, id: RowId)
    requires IsPartialPass(before, rows, done, firstNew) && id in before && id !in done
    ensures id in rows && rows[id] == before[id]
  {
  }

  lemma PartialDelete(before: Rows, rows: Rows, done: set<RowId>, firstNew: nat, id: RowId)
    requires IsPartialPass(before, rows, done, firstNew) && id in before && id !in done && IsPostable(before[id])
    ensures IsPartialPass(before, rows - {id}, done + {id}, firstNew)
    ensures Gone(done + {id}, rows - {id}) == Gone(done, rows) + 1
  {
    hide IsPostable, IsBump;
    assert (done + {id}) - (rows - {id}).Keys == (done - rows.Keys) + {id};
    assert id !in done - rows.Keys;
  }

  lemma PartialBump(before: Rows, rows: Rows, done: set<RowId>, firstNew: nat, id: RowId, r: Row)
    requires IsPartialPass(before, rows, done, firstNew) && id in before && id !in done && IsBump(before[id], r)
    ensures IsPartialPass(before, rows[id := r], done + {id}, firstNew)
    ensures Gone(done + {id}, rows[id := r]) == Gone(done, rows)
  {
    hide IsPostable, IsBump;
    assert (done + {id}) - rows[id := r].Keys == done - rows.Keys;
  }

  function PostableIn(l: seq<RowId>, rows: Rows): set<RowId> {
    set id | id in Attempted(l, rows) && IsPostable(rows[id])
  }

  lemma AttemptedOneMore(l: seq<RowId>, i: nat, rows: Rows)
    requires Distinct(l) && i < |l| && l[i] in rows
    ensures l[i] !in Attempted(l[..i], rows)
    ensures Attempted(l[..i + 1], rows) == Attempted(l[..i], rows) + (if IsActive(rows[l[i]]) then {l[i]} else {})
  {
    hide IsActive;
    DistinctSplit(l, i);
  }

  /** How many of the listed rows are not posted: stuck, malformed or of unknown kind. */
  function Unposted(l: seq<RowId>, rows: Rows): int {
    |l| - |PostableIn(l, rows)|
  }

  function Gone(done: set<RowId>, rows: Rows): nat {
    |done - rows.Keys|
  }

  lemma UnpostedOneMore(l: seq<RowId>, i: nat, rows: Rows)
    requires Distinct(l) && i < |l| && l[i] in rows
    ensures Unposted(l[..i + 1], rows) ==
            Unposted(l[..i], rows) + (if IsActive(rows[l[i]]) && IsPostable(rows[l[i]]) then 0 else 1)
  {
    hide IsActive, IsPostable;
    AttemptedOneMore(l, i, rows);
    var was, now := PostableIn(l[..i], rows), PostableIn(l[..i + 1], rows);
    if IsActive(rows[l[i]]) && IsPostable(rows[l[i]]) {
      assert now == was + {l[i]};
    } else {
      assert now == was;
    }
  }

  lemma NothingAttempted(rows: Rows)
    ensures Attempted([], rows) == {} && Unposted([], rows) == 0 && Gone({}, rows) == 0
  {
    assert PostableIn([], rows) == {};
    assert {} - rows.Keys == {};
  }

  /** A pass over the whole listing is a drain pass. */
  lemma PartialPassIsPass(before: Rows, rows: Rows, l: seq<RowId>, firstNew: nat)
    requires IsListing(l, before, DRAIN_LIMIT) && IsPartialPass(before, rows, Attempted(l, before), firstNew)
    ensures IsPass(before, rows, Attempted(l, before), firstNew)
    ensures |l| == Min(DRAIN_LIMIT, |before|)
  {
    hide IsActive, IsPostable, IsBump, Before;
    ListingAttemptsTheFirst(l, before);
  }

  class Queue {
    const l2: L2
    var rows: Rows
    var nextId: nat
    /** The operations whose sync call has returned. */
    ghost var submitted: set<Operation>

    ghost predicate Valid()
      reads this, l2
    {
      && RowsOk(rows, nextId)
      && Covered(submitted, l2.accepted, rows)
    }

    constructor (l2: L2)
      ensures this.l2 == l2 && Valid() && rows == map[] && submitted == {}
    {
      this.l2, rows, nextId, submitted := l2, map[], 0, {};
    }

    method Enqueue(op: Operation, now: int, error: Option<string>) returns (id: RowId)
      modifies this
      ensures id == RowId(old(nextId)) && nextId == old(nextId) + 1 && submitted == old(submitted)
      ensures rows == old(rows)[id := Row(op, true, now, if error.Some? then 1 else 0, error)]
    {
      id := RowId(nextId);
      rows := rows[id := Row(op, true, now, if error.Some? then 1 else 0, error)];
      nextId := nextId + 1;
    }

    method Delete(id: RowId)
      modifies this
      ensures rows == old(rows) - {id} && nextId == old(nextId) && submitted == old(submitted)
    {
      rows := rows - {id};
    }

    method Bump(id: RowId, error: string)
      modifies this
      ensures nextId == old(nextId) && submitted == old(submitted)
      ensures rows == if id in old(rows) then old(rows)[id := Bumped(old(rows)[id], error)] else old(rows)
    {
      if id in rows {
        rows := rows[id := Bumped(rows[id], error)];
      }
    }

    /** The row of `rest` that comes first in drain order. */
    method First(rest: set<RowId>) returns (id: RowId)
      requires rest != {} && rest <= rows.Keys
      ensures id in rest && forall k :: k in rest ==> Before(rows[id], rows[k])
    {
      var k :| k in rest;
      id := k;
      var todo := rest - {k};
      while todo != {}
        invariant id in rest && todo <= rest
        invariant forall k :: k in rest - todo ==> Before(rows[id], rows[k])
        decreases todo
      {
        var k :| k in todo;
        todo := todo - {k};
        if !Before(rows[id], rows[k]) {
          id := k;
        }
      }
    }

    method ListPending(limit: nat) returns (l: seq<RowId>)
      ensures IsListing(l, rows, limit)
    {
      var rest := rows.Keys;
      l := [];
      while |l| < limit && rest != {}
        invariant rest <= rows.Keys && Distinct(l) && |l| + |rest| == |rows| && |l| <= limit
        invariant forall id :: id in l <==> id in rows && id !in rest
        invariant forall i, j :: 0 <= i < j < |l| ==> Before(rows[l[i]], rows[l[j]])
        invariant forall id, j :: id in rest && 0 <= j < |l| ==> Before(rows[l[j]], rows[id])
        decreases rest
      {
        var id := First(rest);
        rest := rest - {id};
        l := l + [id];
      }
    }

    /** A handler's sync call: an operation that is not acknowledged is queued with one attempt. */
    method Sync(op: Operation, now: int, enabled: bool) returns (ghost acked: bool)
      requires Valid()
      modifies this, l2
      ensures Valid()
      ensures if enabled then submitted == old(submitted) + {op} && old(l2.accepted) <= l2.accepted
              else submitted == old(submitted) && l2.accepted == old(l2.accepted)
      ensures l2.posts == if enabled then old(l2.posts) + [Posted(op, None, acked)] else old(l2.posts)
      ensures !enabled || acked ==> rows == old(rows) && nextId == old(nextId)
      ensures enabled && !acked ==>
        && nextId == old(nextId) + 1
        && rows == old(rows)[RowId(old(nextId)) := Row(op, true, now, 1, Some("post failed"))]
    {
      hide Covered;
      acked := false;
      if !enabled {
        return;
      }
      var ok := l2.Post(op, None);
      acked := ok;
      PostKeepsCovered(submitted, old(l2.accepted), l2.accepted, op, rows);
      if ok {
        submitted := submitted + {op};
      } else {
        ghost var was := rows;
        var id := Enqueue(op, now, Some("post failed"));
        BumpKeepsCovered(submitted, l2.accepted, was, id, rows[id]);
        submitted := submitted + {op};
      }
    }

    /** What other handlers do while a post is awaited. */
    method Await() returns (ghost more: seq<Posted>)
      requires Valid()
      modifies this, l2
      ensures l2.posts == old(l2.posts) + more && forall p :: p in more ==> p.row.None?
      ensures Valid() && old(submitted) <= submitted && old(l2.accepted) <= l2.accepted
      ensures old(nextId) <= nextId
      ensures forall id :: id in old(rows) ==> id in rows && rows[id] == old(rows)[id]
      ensures forall id :: id in rows && id !in old(rows) ==> id.n >= old(nextId) && rows[id].attempts == 1
    {
      hide Covered, RowsOk;
      more := [];
      var calls: int := *;
      for i := 0 to if calls > 0 then calls else 0
        invariant Valid() && old(submitted) <= submitted && old(l2.accepted) <= l2.accepted
        invariant l2.posts == old(l2.posts) + more && forall p :: p in more ==> p.row.None?
        invariant old(nextId) <= nextId
        invariant forall id :: id in old(rows) ==> id in rows && rows[id] == old(rows)[id]
        invariant forall id :: id in rows && id !in old(rows) ==> id.n >= old(nextId) && rows[id].attempts == 1
      {
        var op: Operation := *;
        var now: int := *;
        IdsBelow(rows, nextId);
        ghost var acked := Sync(op, now, true);
        ConcatAssociates(old(l2.posts), more, [Posted(op, None, acked)]);
        more := more + [Posted(op, None, acked)];
      }
    }

    /** One drain pass. `attempted` are the rows it took; other handlers may add rows while it waits. */
    method Drain(enabled: bool) returns (drained: nat, remaining: nat, stuck: nat, ghost attempted: set<RowId>)
      requires Valid()
      modifies this, l2
      ensures Valid() && old(submitted) <= submitted && old(l2.accepted) <= l2.accepted
      ensures !enabled ==>
        && rows == old(rows) && l2.accepted == old(l2.accepted) && l2.posts == old(l2.posts)
        && drained == remaining == stuck == 0
      // Each postable row it takes is posted once, and gone exactly when that post was acknowledged.
      ensures enabled ==>
        old(l2.posts) <= l2.posts && PostedOnce(l2.posts[|old(l2.posts)|..], old(rows), rows, attempted)
      ensures enabled ==>
        && IsPass(old(rows), rows, attempted, old(nextId))
        && drained == |attempted - rows.Keys| && remaining == |rows|
        && stuck == Min(DRAIN_LIMIT, |old(rows)|) - |set id | id in attempted && IsPostable(old(rows)[id])|
      ensures enabled ==> forall id :: id in attempted && id in old(rows) ==>
        TimesPosted(l2.posts[|old(l2.posts)|..], id) ==
        if old(rows)[id].wellFormed && old(rows)[id].op.kind in {SendMessage, Reply, CloseThread} then 1 else 0
    {
      hide Covered, IsListing, IsPartialPass, IsPass, Attempted, PostableIn, Before, IsPostable, RowsOk, Distinct,
        PostedOnce;
      drained, remaining, stuck, attempted := 0, 0, 0, {};
      if !enabled {
        return;
      }
      ghost var before, firstNew := rows, nextId;
      var l := ListPending(DRAIN_LIMIT);
      ListingRows(l, before);
      PartialStart(before, firstNew);
      ghost var posts;
      drained, stuck, posts := DrainRows(l, before, firstNew);
      assert l2.posts[|old(l2.posts)|..] == posts;
      attempted := Attempted(l, before);
      PartialPassIsPass(before, rows, l, firstNew);
      PostableAre(l, before);
      KnownKindsArePosted(posts, before, rows, attempted);
      remaining := |rows|;
    }

    /** The loop of a drain pass over the rows listed. */
    method DrainRows(l: seq<RowId>, ghost before: Rows, ghost firstNew: nat)
      returns (drained: nat, stuck: nat, ghost posts: seq<Posted>)
      requires Valid() && firstNew == nextId && before == rows
      requires Distinct(l) && forall id :: id in l ==> id in before
      modifies this, l2
      ensures Valid() && old(submitted) <= submitted && old(l2.accepted) <= l2.accepted && firstNew <= nextId
      ensures IsPartialPass(before, rows, Attempted(l, before), firstNew)
      ensures l2.posts == old(l2.posts) + posts && PostedOnce(posts, before, rows, Attempted(l, before))
      ensures drained == Gone(Attempted(l, before), rows) && stuck == Unposted(l, before)
    {
      hide Covered, IsPartialPass, Attempted, Unposted, Gone, IsPostable, IsActive, RowsOk, Distinct,
        PostedOnce;
      drained, stuck, posts := 0, 0, [];
      NothingPosted(before, rows);
      ghost var done: set<RowId> := {};
      PartialStart(before, firstNew);
      NothingAttempted(before);
      assert l[..0] == [];
      for i := 0 to |l|
        invariant Valid() && old(submitted) <= submitted && old(l2.accepted) <= l2.accepted
        invariant firstNew <= nextId && done == Attempted(l[..i], before)
        invariant IsPartialPass(before, rows, done, firstNew)
        invariant l2.posts == old(l2.posts) + posts && PostedOnce(posts, before, rows, done)
        invariant drained == Gone(done, rows) && stuck == Unposted(l[..i], before)
      {
        AttemptedOneMore(l, i, before);
        UnpostedOneMore(l, i, before);
        PartialRow(before, rows, done, firstNew, l[i]);
        if !IsActive(rows[l[i]]) {
          stuck := stuck + 1;
        } else {
          ghost var more;
          var sent, gone;
          sent, gone, more := Attempt(l[i], before, done, firstNew, posts);
          ConcatAssociates(old(l2.posts), posts, more);
          posts := posts + more;
          done := done + {l[i]};
          if gone {
            drained := drained + 1;
          }
          if !sent {
            stuck := stuck + 1;
          }
        }
      }
      assert l[..|l|] == l;
    }

    /** One turn of the drain loop for a row that is not stuck. */
    method Attempt(
      id: RowId, ghost before: Rows, ghost done: set<RowId>, ghost firstNew: nat, ghost posts: seq<Posted>)
      returns (sent: bool, gone: bool, ghost more: seq<Posted>)
      requires PostedOnce(posts, before, rows, done)
      requires Valid() && firstNew <= nextId && RowsOk(before, firstNew)
      requires IsPartialPass(before, rows, done, firstNew)
      requires id in before && id !in done && IsActive(before[id])
      modifies this, l2
      ensures Valid() && old(submitted) <= submitted && old(l2.accepted) <= l2.accepted && firstNew <= nextId
      ensures IsPartialPass(before, rows, done + {id}, firstNew)
      ensures Gone(done + {id}, rows) == old(Gone(done, rows)) + (if gone then 1 else 0)
      ensures sent <==> IsPostable(before[id])
      ensures l2.posts == old(l2.posts) + more && PostedOnce(posts + more, before, rows, done + {id})
    {
      hide Covered, IsPartialPass, IsBump, RowsOk, Gone, PostedOnce;
      more := [];
      ghost var start, others := rows, [];
      PartialRow(before, rows, done, firstNew, id);
      var row := rows[id];
      sent, gone := row.wellFormed && row.op.kind != Unknown, false;
      if sent {
        ghost var was := rows;
        others := Await();
        OthersPosted(posts, others, before, start, done);
        IdsBelow(before, firstNew);
        PartialAwait(before, was, rows, done, firstNew);
        DoneIsOld(before, was, rows, done, firstNew);
        PartialRow(before, rows, done, firstNew, id);
        ghost var accepted := l2.accepted;
        gone := l2.Post(row.op, Some(id));
        more := others + [Posted(row.op, Some(id), gone)];
        PostKeepsCovered(submitted, accepted, l2.accepted, row.op, rows);
      }
      ghost var mid := rows;
      if gone {
        DeleteKeepsCovered(submitted, l2.accepted, rows, id);
        RowsOkAfterDelete(rows, nextId, id);
        PartialDelete(before, rows, done, firstNew, id);
        Delete(id);
        OneMorePosted(posts + others, Posted(row.op, Some(id), true), before, start, rows, done, id);
        ConcatAssociates(posts, others, [Posted(row.op, Some(id), true)]);
      } else {
        BumpedRow(rows[id], "not acknowledged");
        RowsOkAfterBump(rows, nextId, id, Bumped(before[id], "not acknowledged"));
        Bump(id, "not acknowledged");
        BumpKeepsCovered(submitted, l2.accepted, mid, id, rows[id]);
        PartialBump(before, mid, done, firstNew, id, rows[id]);
        if sent {
          OneMorePosted(posts + others, Posted(row.op, Some(id), false), before, start, rows, done, id);
          ConcatAssociates(posts, others, [Posted(row.op, Some(id), false)]);
        } else {
          OneNotPosted(posts, before, start, rows, done, id);
          assert posts + more == posts;
        }
      }
    }
  }

  lemma ListingRows(l: seq<RowId>, rows: Rows)
    requires IsListing(l, rows, DRAIN_LIMIT)
    ensures Distinct(l) && forall id :: id in l ==> id in rows
  {
  }

  lemma PostableAre(l: seq<RowId>, rows: Rows)
    ensures PostableIn(l, rows) == set id | id in Attempted(l, rows) && IsPostable(rows[id])
  {
  }
}
