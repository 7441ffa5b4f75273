/** Reading the activity log page by page with a cursor. */
module Pagination {
  import opened Prelude
  import opened Arithmetic
  import opened Lexicographic
  import Sequences

  datatype Row = Row(
    id: string, ts: string, enterprise: string, group: Option<string>, persona: Option<string>, eventType: string)

  datatype Filter = Filter(
    enterprise: string, group: Option<string>, persona: Option<string>, since: Option<string>,
    until: Option<string>, eventType: Option<string>)

  datatype Cursor = Cursor(ts: string, id: string)

  const SEPARATOR := '|'

  datatype CursorError = NoSeparator | EmptyPart

  // ---- Cursors ----

  function Encode(c: Cursor): string {
    c.ts + [SEPARATOR] + c.id
  }

  /** `split("|", 1)`: the first separator divides. */
  function Split(s: string): Cursor
    requires SEPARATOR in s
  {
    if s[0] == SEPARATOR then Cursor("", s[1..])
    else
      var rest := Split(s[1..]);
      Cursor([s[0]] + rest.ts, rest.id)
  }

  /** An absent or empty cursor asks for the first page. */
  function Decode(s: Option<string>): Result<Option<Cursor>, CursorError> {
    if s.None? || s.value == "" then Ok(None)
    else if SEPARATOR !in s.value then Err(NoSeparator)
    else
      var c := Split(s.value);
      if c.ts == "" || c.id == "" then Err(EmptyPart) else Ok(Some(c))
  }

  lemma {:induction false} SplitAtFirst(a: string, b: string)
    requires SEPARATOR !in a
    ensures SEPARATOR in a + [SEPARATOR] + b
    ensures Split(a + [SEPARATOR] + b) == Cursor(a, b)
  {
    var s := a + [SEPARATOR] + b;
    assert s[|a|] == SEPARATOR;
    if a == "" {
      assert s[1..] == b;
    } else {
      assert s[0] == a[0] && a[0] in a;
      assert s[1..] == a[1..] + [SEPARATOR] + b;
      SplitAtFirst(a[1..], b);
      assert [a[0]] + a[1..] == a;
    }
  }

  lemma {:induction false} SplitTsHasNoSeparator(s: string)
    requires SEPARATOR in s
    ensures SEPARATOR !in Split(s).ts && s == Encode(Split(s))
  {
    if s[0] == SEPARATOR {
      assert s == "" + [SEPARATOR] + s[1..];
    } else {
      SplitTsHasNoSeparator(s[1..]);
      assert s == [s[0]] + s[1..];
    }
  }

  /** A cursor comes back from its encoding exactly when neither part is empty and its time has no separator. */
  lemma CursorRoundTrip(c: Cursor)
    ensures Decode(Some(Encode(c))) == Ok(Some(c)) <==> c.ts != "" && c.id != "" && SEPARATOR !in c.ts
  {
    var s := Encode(c);
    assert s[|c.ts|] == SEPARATOR;
    assert SEPARATOR in s;
    if SEPARATOR !in c.ts {
      SplitAtFirst(c.ts, c.id);
    } else {
      SplitTsHasNoSeparator(s);
    }
  }

  // ---- One page ----

  predicate Matches(r: Row, f: Filter) {
    && r.enterprise == f.enterprise
    && (f.group.Some? ==> r.group == f.group)
    && (f.persona.Some? ==> r.persona == f.persona)
    && (f.since.Some? ==> !Less(r.ts, f.since.value))
    && (f.until.Some? ==> Less(r.ts, f.until.value))
    && (f.eventType.Some? ==> r.eventType == f.eventType.value)
  }

  function KeyOf(r: Row): Cursor {
    Cursor(r.ts, r.id)
  }

  /** `a` sorts before `b` in ascending (ts, id) order. */
  predicate Older(a: Cursor, b: Cursor) {
    Less(a.ts, b.ts) || (a.ts == b.ts && Less(a.id, b.id))
  }

  predicate IsBehind(r: Row, cursor: Option<Cursor>) {
    cursor.Some? ==> Older(KeyOf(r), cursor.value)
  }

  ghost predicate Descending(page: seq<Row>) {
    forall i, j :: 0 <= i < j < |page| ==> Older(KeyOf(page[j]), KeyOf(page[i]))
  }

  function Rest(table: set<Row>, f: Filter, cursor: Option<Cursor>): set<Row> {
    set r | r in table && Matches(r, f) && IsBehind(r, cursor)
  }

  /** The newest `limit` matching rows behind the cursor, newest first. */
  ghost predicate IsPage(page: seq<Row>, table: set<Row>, f: Filter, cursor: Option<Cursor>, limit: nat) {
    var rest := Rest(table, f, cursor);
    && |page| == (if |rest| <= limit then |rest| else limit)
    && Descending(page)
    && (forall r :: r in page ==> r in rest)
    && (forall r, i :: r in rest && r !in page && 0 <= i < |page| ==> Older(KeyOf(r), KeyOf(page[i])))
  }

  /** A full page carries the cursor of its last row; any other page is the last one. */
  function NextCursor(page: seq<Row>, limit: nat): Option<string> {
    if |page| == limit && page != [] then Some(Encode(KeyOf(page[|page| - 1]))) else None
  }

  /** Rows as the log writes them: their cursors survive encoding. */
  predicate IsWritten(r: Row) {
    r.ts != "" && r.id != "" && SEPARATOR !in r.ts
  }

  lemma OlderIrreflexive(a: Cursor)
    ensures !Older(a, a)
  {
    LessIrreflexive(a.ts);
    LessIrreflexive(a.id);
  }

  lemma OlderTransitive(a: Cursor, b: Cursor, c: Cursor)
    requires Older(a, b) && Older(b, c)
    ensures Older(a, c)
  {
    if Less(a.ts, b.ts) && Less(b.ts, c.ts) {
      LessTransitive(a.ts, b.ts, c.ts);
    } else if a.ts == b.ts == c.ts {
      LessTransitive(a.id, b.id, c.id);
    }
  }

  lemma OlderAsymmetric(a: Cursor, b: Cursor)
    requires Older(a, b)
    ensures !Older(b, a)
  {
    LessAsymmetric(a.ts, b.ts);
    LessAsymmetric(a.id, b.id);
    LessIrreflexive(a.ts);
  }

  lemma OlderTotal(a: Cursor, b: Cursor)
    ensures Older(a, b) || a == b || Older(b, a)
  {
    LessTotal(a.ts, b.ts);
    LessTotal(a.id, b.id);
  }

  /** No two rows of the log have the same id. */
  ghost predicate IdsUnique(table: set<Row>) {
    forall r, s :: r in table && s in table && r.id == s.id ==> r == s
  }

  /** A page holds rows of the caller's Enterprise that pass every filter given, newest first. */
  lemma PageShows(page: seq<Row>, table: set<Row>, f: Filter, cursor: Option<Cursor>, limit: nat)
    requires IsPage(page, table, f, cursor, limit)
    ensures forall r :: r in page ==>
      && r in table && r.enterprise == f.enterprise
      && (f.group.Some? ==> r.group == f.group) && (f.persona.Some? ==> r.persona == f.persona)
      && (f.since.Some? ==> r.ts == f.since.value || Less(f.since.value, r.ts))
      && (f.until.Some? ==> Less(r.ts, f.until.value))
      && (f.eventType.Some? ==> r.eventType == f.eventType.value)
      && (cursor.Some? ==> Less(r.ts, cursor.value.ts) || (r.ts == cursor.value.ts && Less(r.id, cursor.value.id)))
    ensures forall i, j :: 0 <= i < j < |page| ==>
      Less(page[j].ts, page[i].ts) || (page[j].ts == page[i].ts && Less(page[j].id, page[i].id))
  {
    forall r | r in page && f.since.Some? ensures r.ts == f.since.value || Less(f.since.value, r.ts) {
      LessTotal(r.ts, f.since.value);
    }
  }

  /** A page that is not full holds all of them. */
  lemma ShortPageShowsAll(page: seq<Row>, table: set<Row>, f: Filter, cursor: Option<Cursor>, limit: nat, r: Row)
    requires IsPage(page, table, f, cursor, limit) && |page| < limit && r in table && r.enterprise == f.enterprise
    requires (f.group == None || f.group == r.group) && (f.persona == None || f.persona == r.persona)
    requires f.since == None || r.ts == f.since.value || Less(f.since.value, r.ts)
    requires f.until == None || Less(r.ts, f.until.value)
    requires f.eventType == None || f.eventType == Some(r.eventType)
    requires
      cursor == None || Less(r.ts, cursor.value.ts) || (r.ts == cursor.value.ts && Less(r.id, cursor.value.id))
    ensures r in page
  {
    if f.since.Some? {
      LessAsymmetric(f.since.value, r.ts);
      LessIrreflexive(r.ts);
    }
    ShortPageHasAll(page, table, f, cursor, limit, r);
  }

  /** What the store's statement answers. */
  method SelectPage(table: set<Row>, f: Filter, cursor: Option<Cursor>, limit: nat) returns (page: seq<Row>)
    requires IdsUnique(table)
    ensures IsPage(page, table, f, cursor, limit)
    ensures forall r :: r in page ==>
      && r in table && r.enterprise == f.enterprise
      && (f.group.Some? ==> r.group == f.group) && (f.persona.Some? ==> r.persona == f.persona)
      && (f.since.Some? ==> r.ts == f.since.value || Less(f.since.value, r.ts))
      && (f.until.Some? ==> Less(r.ts, f.until.value))
      && (f.eventType.Some? ==> r.eventType == f.eventType.value)
      && (cursor.Some? ==> Less(r.ts, cursor.value.ts) || (r.ts == cursor.value.ts && Less(r.id, cursor.value.id)))
    ensures forall i, j :: 0 <= i < j < |page| ==>
      Less(page[j].ts, page[i].ts) || (page[j].ts == page[i].ts && Less(page[j].id, page[i].id))
  {
    hide Older, Matches, IsBehind;
    var rest := set r | r in table && Matches(r, f) && IsBehind(r, cursor);
    page := [];
    ghost var all := rest;
    while rest != {} && |page| < limit
      invariant rest <= all && |page| + |rest| == |all| && |page| <= limit
      invariant Descending(page) && forall r :: r in page <==> r in all && r !in rest
      invariant forall r, i :: r in rest && 0 <= i < |page| ==> Older(KeyOf(r), KeyOf(page[i]))
      decreases rest
    {
      var r := Newest(table, rest);
      rest := rest - {r};
      page := page + [r];
    }
    PageShows(page, table, f, cursor, limit);
  }

  method Newest(table: set<Row>, rest: set<Row>) returns (newest: Row)
    requires IdsUnique(table) && rest <= table && rest != {}
    ensures newest in rest && forall r :: r in rest && r != newest ==> Older(KeyOf(r), KeyOf(newest))
  {
    hide Older;
    newest :| newest in rest;
    var todo := rest - {newest};
    while todo != {}
      invariant newest in rest && todo <= rest && newest !in todo
      invariant forall r :: r in rest - todo && r != newest ==> Older(KeyOf(r), KeyOf(newest))
      decreases todo
    {
      var r :| r in todo;
      todo := todo - {r};
      OlderTotal(KeyOf(r), KeyOf(newest));
      if !Older(KeyOf(r), KeyOf(newest)) {
        forall s | s in rest - todo && s != r && s != newest ensures Older(KeyOf(s), KeyOf(r)) {
          OlderTransitive(KeyOf(s), KeyOf(newest), KeyOf(r));
        }
        newest := r;
      }
    }
  }

  // ---- Following the cursor to the end ----

  /** The cursor sent with request `i`. */
  function Requested(pages: seq<seq<Row>>, i: nat, limit: nat): Option<string>
    requires i < |pages|
  {
    if i == 0 then None else NextCursor(pages[i - 1], limit)
  }

  /** `page` answers a request with the cursor `sent`. */
  ghost predicate Answers(page: seq<Row>, table: set<Row>, f: Filter, sent: Option<string>, limit: nat) {
    Decode(sent).Ok? && IsPage(page, table, f, Decode(sent).value, limit)
  }

  /**
   A client that follows `next_cursor`, so far. `tables[i]` is the log when page `i` is read; rows may be
   appended and purged in between.
   */
  ghost predicate IsWalkSoFar(tables: seq<set<Row>>, pages: seq<seq<Row>>, f: Filter, limit: nat) {
    && limit > 0 && |tables| == |pages| > 0
    && (forall i, r :: 0 <= i < |tables| && r in tables[i] ==> IsWritten(r))
    && (forall i :: 0 <= i < |pages| ==> Answers(pages[i], tables[i], f, Requested(pages, i, limit), limit))
    && (forall i :: 0 <= i < |pages| - 1 ==> NextCursor(pages[i], limit) != None)
  }

  ghost predicate HasEnded(pages: seq<seq<Row>>, limit: nat) {
    pages != [] && NextCursor(pages[|pages| - 1], limit) == None
  }

  /** A client that follows `next_cursor` until it is null. */
  ghost predicate IsWalk(tables: seq<set<Row>>, pages: seq<seq<Row>>, f: Filter, limit: nat) {
    IsWalkSoFar(tables, pages, f, limit) && HasEnded(pages, limit)
  }

  function Yielded(pages: seq<seq<Row>>): seq<Row> {
    if pages == [] then [] else Yielded(pages[..|pages| - 1]) + pages[|pages| - 1]
  }

  function CursorAt(pages: seq<seq<Row>>, i: nat): Option<Cursor>
    requires i <= |pages|
  {
    if i == 0 || pages[i - 1] == [] then None else Some(KeyOf(pages[i - 1][|pages[i - 1]| - 1]))
  }

  lemma PageFits(page: seq<Row>, table: set<Row>, f: Filter, sent: Option<string>, limit: nat)
    requires Answers(page, table, f, sent, limit)
    ensures |page| <= limit
    ensures forall r :: r in page ==> r in table
  {
    hide Decode;
  }

  /** The encoded cursor of a page is read back as the key of its last row. */
  lemma WalkPage(tables: seq<set<Row>>, pages: seq<seq<Row>>, f: Filter, limit: nat, i: nat)
    requires IsWalkSoFar(tables, pages, f, limit) && i < |pages|
    ensures |tables| == |pages|
    ensures IsPage(pages[i], tables[i], f, CursorAt(pages, i), limit)
    ensures i > 0 ==> |pages[i - 1]| == limit && pages[i - 1] != []
    ensures |pages[i]| <= limit
    ensures i == |pages| - 1 ==> (|pages[i]| < limit <==> HasEnded(pages, limit))
  {
    hide IsPage, Encode, Decode;
    assert Answers(pages[i], tables[i], f, Requested(pages, i, limit), limit);
    PageFits(pages[i], tables[i], f, Requested(pages, i, limit), limit);
    if i > 0 {
      assert NextCursor(pages[i - 1], limit) != None;
      var last := pages[i - 1][|pages[i - 1]| - 1];
      PageFits(pages[i - 1], tables[i - 1], f, Requested(pages, i - 1, limit), limit);
      assert last in pages[i - 1];
      CursorRoundTrip(KeyOf(last));
      assert IsWritten(last);
      assert Requested(pages, i, limit) == Some(Encode(KeyOf(last)));
      assert Decode(Some(Encode(KeyOf(last)))) == Ok(CursorAt(pages, i));
    } else {
      FirstRequest();
    }
  }

  lemma FirstRequest()
    ensures Decode(None) == Ok(None)
  {
  }

  /** What has been yielded before page `n` is descending and ends with the row the cursor of page `n` names. */
  lemma {:induction false} YieldedDescends(
    tables: seq<set<Row>>, pages: seq<seq<Row>>, f: Filter, limit: nat, n: nat)
    requires IsWalkSoFar(tables, pages, f, limit) && 0 < n <= |pages|
    ensures Descending(Yielded(pages[..n]))
    ensures pages[n - 1] != [] ==>
              forall r :: r in Yielded(pages[..n]) ==>
                r == pages[n - 1][|pages[n - 1]| - 1] || Older(CursorAt(pages, n).value, KeyOf(r))
  {
    hide IsWalkSoFar, Older, Matches, IsPage, Descending;
    var page := pages[n - 1];
    WalkPage(tables, pages, f, limit, n - 1);
    assert pages[..n][..n - 1] == pages[..n - 1];
    var before := Yielded(pages[..n - 1]);
    PageDescends(page, tables[n - 1], f, CursorAt(pages, n - 1), limit);
    assert Yielded(pages[..n]) == before + page;
    if n == 1 {
      assert before + page == page;
    } else {
      YieldedDescends(tables, pages, f, limit, n - 1);
      NextPageIsOlder(before, page, tables[n - 1], f, CursorAt(pages, n - 1).value, limit);
      DescendingConcat(before, page);
    }
    if page == [] {
    } else {
      LastIsOldest(before, page);
    }
  }

  lemma PageDescends(page: seq<Row>, table: set<Row>, f: Filter, cursor: Option<Cursor>, limit: nat)
    requires IsPage(page, table, f, cursor, limit)
    ensures Descending(page)
  {
  }

  lemma NextPageIsOlder(
    before: seq<Row>, page: seq<Row>, table: set<Row>, f: Filter, cursor: Cursor, limit: nat)
    requires IsPage(page, table, f, Some(cursor), limit)
    requires forall r :: r in before ==> KeyOf(r) == cursor || Older(cursor, KeyOf(r))
    ensures forall r, p :: r in before && p in page ==> Older(KeyOf(p), KeyOf(r))
  {
    hide Older, Matches;
    forall r, p | r in before && p in page ensures Older(KeyOf(p), KeyOf(r)) {
      if KeyOf(r) != cursor {
        OlderTransitive(KeyOf(p), cursor, KeyOf(r));
      }
    }
  }

  /** The last row of a page is the oldest yielded so far. */
  lemma LastIsOldest(before: seq<Row>, page: seq<Row>)
    requires Descending(before + page) && page != []
    ensures forall r :: r in before + page ==>
              r == page[|page| - 1] || Older(KeyOf(page[|page| - 1]), KeyOf(r))
  {
    hide Older;
    var all := before + page;
    assert all[|all| - 1] == page[|page| - 1];
  }

  lemma DescendingConcat(a: seq<Row>, b: seq<Row>)
    requires Descending(a) && Descending(b)
    requires forall r, p :: r in a && p in b ==> Older(KeyOf(p), KeyOf(r))
    ensures Descending(a + b)
  {
    hide Older;
    var all := a + b;
    forall i, j | 0 <= i < j < |all| ensures Older(KeyOf(all[j]), KeyOf(all[i])) {
      if i < |a| <= j {
        assert all[j] in b && all[i] in a;
      }
    }
  }

  /** A matching row that is there all along and not yet yielded is still behind the cursor. */
  lemma {:induction false} NotYetYielded(
    tables: seq<set<Row>>, pages: seq<seq<Row>>, f: Filter, limit: nat, n: nat, r: Row)
    requires IsWalk(tables, pages, f, limit) && n <= |pages|
    requires Matches(r, f) && forall i :: 0 <= i < |tables| ==> r in tables[i]
    requires r !in Yielded(pages[..n])
    ensures n < |pages| && IsBehind(r, CursorAt(pages, n))
  {
    hide IsWalkSoFar, Older, Matches;
    if n == 0 {
      WalkIsNotEmpty(tables, pages, f, limit);
    } else {
      assert pages[..n][..n - 1] == pages[..n - 1];
      NotYetYielded(tables, pages, f, limit, n - 1, r);
      WalkPage(tables, pages, f, limit, n - 1);
      assert r in Rest(tables[n - 1], f, CursorAt(pages, n - 1));
      if |pages[n - 1]| < limit {
        ShortPageHasAll(pages[n - 1], tables[n - 1], f, CursorAt(pages, n - 1), limit, r);
      }
    }
  }

  lemma WalkIsNotEmpty(tables: seq<set<Row>>, pages: seq<seq<Row>>, f: Filter, limit: nat)
    requires IsWalkSoFar(tables, pages, f, limit)
    ensures |pages| == |tables| > 0 && limit > 0
  {
  }

  /** A page that is not full holds every matching row behind the cursor. */
  lemma ShortPageHasAll(page: seq<Row>, table: set<Row>, f: Filter, cursor: Option<Cursor>, limit: nat, r: Row)
    requires IsPage(page, table, f, cursor, limit) && |page| < limit && r in Rest(table, f, cursor)
    ensures r in page
  {
    hide Rest, Older;
    var rest := Rest(table, f, cursor);
    var listed := set x | x in page;
    DescendingIsDistinct(page);
    assert listed <= rest;
    if r !in page {
      Sequences.SubsetSize(listed, rest - {r});
    }
  }

  lemma {:induction false} DescendingIsDistinct(page: seq<Row>)
    requires Descending(page)
    ensures |set x | x in page| == |page|
  {
    hide Older;
    if page == [] {
    } else {
      var init, last := page[..|page| - 1], page[|page| - 1];
      DescendingIsDistinct(init);
      forall x | x in init ensures x != last {
        OlderIrreflexive(KeyOf(last));
      }
      assert page == init + [last];
      assert (set x | x in page) == (set x | x in init) + {last};
    }
  }

  lemma {:induction false} YieldedWasThere(
    tables: seq<set<Row>>, pages: seq<seq<Row>>, f: Filter, limit: nat, n: nat, r: Row)
    requires IsWalkSoFar(tables, pages, f, limit) && n <= |pages| && r in Yielded(pages[..n])
    ensures Matches(r, f)
    ensures |tables| == |pages|
    ensures exists i :: 0 <= i < n && r in pages[i] && r in tables[i] && IsBehind(r, CursorAt(pages, i))
  {
    hide IsWalkSoFar, Older, Matches, IsBehind;
    assert pages[..0] == [];
    if n == 0 {
    } else {
      assert pages[..n][..n - 1] == pages[..n - 1];
      WalkPage(tables, pages, f, limit, n - 1);
      if r !in pages[n - 1] {
        YieldedWasThere(tables, pages, f, limit, n - 1, r);
      }
    }
  }

  lemma NoForeignRowMatches(r: Row, f: Filter)
    requires Matches(r, f)
    ensures r.enterprise == f.enterprise
  {
  }

  /**
   Following the cursor to the end yields rows in strictly descending order, so none twice; every row yielded
   matches and is of the Enterprise asked for; and every matching row that stays in the log meanwhile is yielded,
   whatever else is appended or purged between pages.
   */
  lemma WalkYieldsEveryRowOnce(tables: seq<set<Row>>, pages: seq<seq<Row>>, f: Filter, limit: nat)
    requires IsWalk(tables, pages, f, limit)
    ensures Descending(Yielded(pages))
    ensures forall r :: r in Yielded(pages) ==> Matches(r, f) && r.enterprise == f.enterprise
    ensures forall r :: Matches(r, f) && (forall i :: 0 <= i < |tables| ==> r in tables[i]) ==> r in Yielded(pages)
  {
    hide IsWalkSoFar, Descending, Matches;
    WalkIsNotEmpty(tables, pages, f, limit);
    assert pages[..|pages|] == pages;
    YieldedDescends(tables, pages, f, limit, |pages|);
    forall r | r in Yielded(pages) ensures Matches(r, f) && r.enterprise == f.enterprise {
      YieldedWasThere(tables, pages, f, limit, |pages|, r);
      NoForeignRowMatches(r, f);
    }
    forall r | Matches(r, f) && (forall i :: 0 <= i < |tables| ==> r in tables[i]) ensures r in Yielded(pages) {
      if r !in Yielded(pages) {
        NotYetYielded(tables, pages, f, limit, |pages|, r);
      }
    }
  }

  /** The cursors of later pages lie behind that of the second one. */
  lemma {:induction false} CursorsDescend(
    tables: seq<set<Row>>, pages: seq<seq<Row>>, f: Filter, limit: nat, i: nat)
    requires IsWalkSoFar(tables, pages, f, limit) && 0 < i < |pages|
    ensures CursorAt(pages, 1).Some? && CursorAt(pages, i).Some?
    ensures CursorAt(pages, i) == CursorAt(pages, 1) || Older(CursorAt(pages, i).value, CursorAt(pages, 1).value)
  {
    hide IsWalkSoFar, Older, Matches;
    WalkPage(tables, pages, f, limit, i);
    if i == 1 {
    } else {
      CursorsDescend(tables, pages, f, limit, i - 1);
      WalkPage(tables, pages, f, limit, i - 1);
      var last := pages[i - 1][|pages[i - 1]| - 1];
      assert last in pages[i - 1];
      assert Older(KeyOf(last), CursorAt(pages, i - 1).value);
      if CursorAt(pages, i - 1) != CursorAt(pages, 1) {
        OlderTransitive(KeyOf(last), CursorAt(pages, i - 1).value, CursorAt(pages, 1).value);
      }
    }
  }

  /** Nothing is purged and everything appended meanwhile is newer than what was there. */
  ghost predicate OnlyNewerArrive(tables: seq<set<Row>>) {
    && tables != []
    && (forall i :: 0 <= i < |tables| ==> tables[0] <= tables[i])
    && (forall i, r, s :: 0 <= i < |tables| && r in tables[i] && r !in tables[0] && s in tables[0] ==>
          Older(KeyOf(s), KeyOf(r)))
  }

  function Matching(table: set<Row>, f: Filter): set<Row> {
    set r | r in table && Matches(r, f)
  }

  lemma YieldedFromFirst(tables: seq<set<Row>>, pages: seq<seq<Row>>, f: Filter, limit: nat)
    requires IsWalkSoFar(tables, pages, f, limit) && OnlyNewerArrive(tables)
    ensures forall r :: r in Yielded(pages) ==> r in Matching(tables[0], f)
  {
    hide IsWalkSoFar, Older, Matches;
    WalkIsNotEmpty(tables, pages, f, limit);
    assert pages[..|pages|] == pages;
    forall r | r in Yielded(pages) ensures r in Matching(tables[0], f) {
      YieldedWasThere(tables, pages, f, limit, |pages|, r);
      var i :| 0 <= i < |pages| && r in pages[i] && r in tables[i] && IsBehind(r, CursorAt(pages, i));
      if i > 0 && r !in tables[0] {
        NoNewRowBehind(tables, pages, f, limit, i, r);
      }
    }
  }

  /**
   When nothing is purged and everything appended is newer than what was there, the walk yields exactly the
   matching rows that were there at the first request.
   */
  lemma WalkYieldsTheFirstTable(tables: seq<set<Row>>, pages: seq<seq<Row>>, f: Filter, limit: nat)
    requires IsWalk(tables, pages, f, limit) && OnlyNewerArrive(tables)
    ensures (set r | r in Yielded(pages)) == Matching(tables[0], f)
  {
    hide IsWalkSoFar, Older, Matches, Descending;
    WalkYieldsEveryRowOnce(tables, pages, f, limit);
    YieldedFromFirst(tables, pages, f, limit);
  }

  lemma {:induction false} YieldedLength(
    tables: seq<set<Row>>, pages: seq<seq<Row>>, f: Filter, limit: nat, n: nat)
    requires IsWalkSoFar(tables, pages, f, limit) && 0 < n <= |pages|
    ensures |Yielded(pages[..n])| == (n - 1) * limit + |pages[n - 1]|
  {
    hide IsWalkSoFar, IsPage;
    assert pages[..n][..n - 1] == pages[..n - 1];
    WalkPage(tables, pages, f, limit, n - 1);
    if n == 1 {
      assert Yielded(pages[..0]) == [];
    } else {
      YieldedLength(tables, pages, f, limit, n - 1);
      assert (n - 1) * limit == (n - 2) * limit + limit;
    }
  }

  /**
   Under the same conditions the walk ends: with `m` matching rows at the first request the cursor is null
   after exactly m / limit + 1 requests, and not before.
   */
  lemma WalkEnds(tables: seq<set<Row>>, pages: seq<seq<Row>>, f: Filter, limit: nat)
    requires IsWalkSoFar(tables, pages, f, limit) && OnlyNewerArrive(tables)
    ensures limit > 0 && |pages| <= |Matching(tables[0], f)| / limit + 1
    ensures HasEnded(pages, limit) <==> |pages| == |Matching(tables[0], f)| / limit + 1
  {
    hide *;
    WalkIsNotEmpty(tables, pages, f, limit);
    YieldedCount(tables, pages, f, limit);
    var n := |pages|;
    WalkPage(tables, pages, f, limit, n - 1);
    YieldedLength(tables, pages, f, limit, n);
    PageCount(n, |Matching(tables[0], f)|, limit, |pages[n - 1]|, HasEnded(pages, limit));
  }

  lemma YieldedCount(tables: seq<set<Row>>, pages: seq<seq<Row>>, f: Filter, limit: nat)
    requires IsWalkSoFar(tables, pages, f, limit) && OnlyNewerArrive(tables) && pages != []
    ensures var count := |Yielded(pages[..|pages|])|;
      count <= |Matching(tables[0], f)| && (HasEnded(pages, limit) ==> count == |Matching(tables[0], f)|)
  {
    hide IsWalkSoFar, Matching, HasEnded, IsPage, Descending, Older;
    assert pages[..|pages|] == pages;
    YieldedDescends(tables, pages, f, limit, |pages|);
    YieldedFromFirst(tables, pages, f, limit);
    var listed := set r | r in Yielded(pages);
    DescendingIsDistinct(Yielded(pages));
    Sequences.SubsetSize(listed, Matching(tables[0], f));
    if HasEnded(pages, limit) {
      WalkYieldsTheFirstTable(tables, pages, f, limit);
    }
  }

  lemma PageCount(n: nat, m: nat, limit: nat, last: nat, ended: bool)
    requires n > 0 && last <= limit && limit > 0 && (ended <==> last < limit)
    requires if ended then (n - 1) * limit + last == m else (n - 1) * limit + last <= m
    ensures n <= m / limit + 1 && (ended <==> n == m / limit + 1)
  {
    if ended {
      DivisionIsUnique(m, limit, n - 1, last);
    } else {
      assert n * limit == (n - 1) * limit + limit;
      QuotientAtLeast(m, limit, n);
    }
  }

  lemma NoNewRowBehind(tables: seq<set<Row>>, pages: seq<seq<Row>>, f: Filter, limit: nat, i: nat, r: Row)
    requires IsWalkSoFar(tables, pages, f, limit) && 0 < i < |pages|
    requires forall s :: s in tables[0] ==> Older(KeyOf(s), KeyOf(r))
    ensures !IsBehind(r, CursorAt(pages, i))
  {
    hide IsWalkSoFar, Older, Matches;
    CursorsDescend(tables, pages, f, limit, i);
    WalkPage(tables, pages, f, limit, 0);
    WalkPage(tables, pages, f, limit, 1);
    var last := pages[0][|pages[0]| - 1];
    assert last in pages[0] && last in tables[0];
    var first, here, k := CursorAt(pages, 1).value, CursorAt(pages, i).value, KeyOf(r);
    assert Older(first, k);
    if here != first {
      OlderTransitive(here, first, k);
    }
    OlderAsymmetric(here, k);
  }
}
