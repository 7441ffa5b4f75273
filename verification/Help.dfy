/** Routing of a help request: shortlist (L0, L1), gate (L2) and token budget (L3). */
module Help {
  import opened Prelude
  import opened Ranking
  import opened Sequences
  import opened Budget
  import opened Crosstalk
  import Delivery

  type Layer = Delivery.Layer

  datatype Expert = Expert(session: Session, units: nat)

  datatype LearnedRow = LearnedRow(session: Session, confidence: real)

  datatype Request = Request(high: bool, maxRecipients: Option<int>, shortlistOnly: bool)

  const DEFAULT_MAX_RECIPIENTS := 5

  /** An absent and a zero maximum both mean the default. */
  function Limit(r: Request): int {
    match r.maxRecipients
    case None => DEFAULT_MAX_RECIPIENTS
    case Some(n) => if n == 0 then DEFAULT_MAX_RECIPIENTS else n
  }

  /** `slice(0, n)`: a negative `n` counts from the end. */
  function Slice<T>(s: seq<T>, n: int): seq<T> {
    if n >= |s| then s else if n >= 0 then s[..n] else if |s| + n >= 0 then s[..|s| + n] else []
  }

  /** How many of `size` a cut with maximum `n` lets through. */
  function Kept(size: nat, n: int): nat {
    if n < 0 then (if size + n >= 0 then size + n else 0) else if n < size then n else size
  }

  /** A cut takes from the front. */
  lemma SliceIsPrefix<T>(s: seq<T>, n: int)
    ensures Slice(s, n) == s[..Kept(|s|, n)]
    ensures n >= 0 ==> |Slice(s, n)| == (if n < |s| then n else |s|)
    ensures n < 0 ==> |Slice(s, n)| == (if -n < |s| then |s| - -n else 0)
  {
  }

  function Except(s: seq<Session>, dropped: seq<Session>): seq<Session> {
    if s == [] then []
    else
      var before, x := Except(s[..|s| - 1], dropped), s[|s| - 1];
      if x in dropped then before else before + [x]
  }

  lemma {:induction false} ExceptProperties(s: seq<Session>, dropped: seq<Session>)
    ensures forall x :: x in Except(s, dropped) <==> x in s && x !in dropped
    ensures |Except(s, dropped)| <= |s|
    ensures Distinct(s) ==> Distinct(Except(s, dropped))
  {
    if s == [] {
    } else {
      ExceptProperties(s[..|s| - 1], dropped);
      assert s == s[..|s| - 1] + [s[|s| - 1]];
    }
  }

  lemma {:induction false} ExceptOneMore(s: seq<Session>, dropped: seq<Session>, x: Session)
    requires x !in s
    ensures Except(s, dropped + [x]) == Except(s, dropped)
  {
    if s == [] {
    } else {
      assert s[|s| - 1] in s;
      ExceptOneMore(s[..|s| - 1], dropped, x);
    }
  }

  lemma ExceptOfAppend(s: seq<Session>, x: Session, dropped: seq<Session>)
    ensures Except(s + [x], dropped) == if x in dropped then Except(s, dropped) else Except(s, dropped) + [x]
  {
    assert (s + [x])[..|s|] == s;
  }

  // ---- The shortlist ----

  /** L0: live sessions with matching units, in the order found. */
  function Attributed(experts: seq<Expert>, live: seq<Session>): seq<Session> {
    if experts == [] then []
    else
      var before, s := Attributed(experts[..|experts| - 1], live), experts[|experts| - 1].session;
      if s != "unknown" && s in live && s !in before then before + [s] else before
  }

  predicate IsExpert(experts: seq<Expert>, s: Session) {
    exists e :: e in experts && e.session == s
  }

  lemma {:induction false} AttributedProperties(experts: seq<Expert>, live: seq<Session>)
    ensures var r := Attributed(experts, live);
      && Distinct(r)
      && forall s :: s in r <==> s != "unknown" && s in live && IsExpert(experts, s)
  {
    if experts == [] {
    } else {
      var init, last := experts[..|experts| - 1], experts[|experts| - 1];
      AttributedProperties(init, live);
      assert experts == init + [last];
      forall s ensures IsExpert(experts, s) <==> s == last.session || IsExpert(init, s) {
        if s == last.session {
          assert last in experts;
        }
      }
    }
  }

  /** Learned expertise by session, in the order of first insertion. */
  datatype Learned = Learned(order: seq<Session>, best: map<Session, real>)

  function Raise(l: Learned, s: Session, confidence: real): Learned {
    if confidence <= (if s in l.best then l.best[s] else 0.0) then l
    else Learned(if s in l.best then l.order else l.order + [s], l.best[s := confidence])
  }

  function LearnedTable(rows: seq<LearnedRow>, live: seq<Session>): Learned {
    if rows == [] then Learned([], map[])
    else
      var before, row := LearnedTable(rows[..|rows| - 1], live), rows[|rows| - 1];
      if row.session in live then Raise(before, row.session, row.confidence) else before
  }

  ghost predicate IsLearned(rows: seq<LearnedRow>, live: seq<Session>, s: Session) {
    s in live && exists row :: row in rows && row.session == s && row.confidence > 0.0
  }

  /** `l` ranks each live session with a positive confidence by its highest one. */
  ghost predicate RanksByBest(l: Learned, rows: seq<LearnedRow>, live: seq<Session>) {
    && Distinct(l.order)
    && (forall s :: s in l.order <==> s in l.best)
    && (forall s :: s in l.best <==> IsLearned(rows, live, s))
    && (forall s :: s in l.best ==> l.best[s] > 0.0 && LearnedRow(s, l.best[s]) in rows)
    && (forall row :: row in rows && row.session in l.best ==> row.confidence <= l.best[row.session])
  }

  lemma RaiseRanks(l: Learned, rows: seq<LearnedRow>, live: seq<Session>, row: LearnedRow)
    requires RanksByBest(l, rows, live)
    ensures RanksByBest(if row.session in live then Raise(l, row.session, row.confidence) else l, rows + [row], live)
  {
    hide IsLearned;
    forall s ensures IsLearned(rows + [row], live, s) <==>
                     IsLearned(rows, live, s) || (s in live && s == row.session && row.confidence > 0.0)
    {
      LearnedWithRow(rows, row, live, s);
    }
    forall s | IsLearned(rows, live, s) ensures s in live {
      LearnedIsLive(rows, live, s);
    }
    forall r ensures r in rows + [row] <==> r in rows || r == row {
    }
    if row.session in live && !IsLearned(rows, live, row.session) {
      NotLearned(rows, live, row.session);
    }
  }

  lemma NotLearned(rows: seq<LearnedRow>, live: seq<Session>, s: Session)
    requires s in live && !IsLearned(rows, live, s)
    ensures forall row :: row in rows && row.session == s ==> row.confidence <= 0.0
  {
  }

  lemma LearnedIsLive(rows: seq<LearnedRow>, live: seq<Session>, s: Session)
    requires IsLearned(rows, live, s)
    ensures s in live
  {
  }

  lemma {:induction false} LearnedTableRanks(rows: seq<LearnedRow>, live: seq<Session>)
    ensures RanksByBest(LearnedTable(rows, live), rows, live)
  {
    hide Raise;
    if rows == [] {
    } else {
      LearnedTableRanks(rows[..|rows| - 1], live);
      RaiseRanks(LearnedTable(rows[..|rows| - 1], live), rows[..|rows| - 1], live, rows[|rows| - 1]);
      assert rows == rows[..|rows| - 1] + [rows[|rows| - 1]];
    }
  }

  lemma LearnedWithRow(init: seq<LearnedRow>, row: LearnedRow, live: seq<Session>, s: Session)
    ensures IsLearned(init + [row], live, s) <==>
            IsLearned(init, live, s) || (s in live && s == row.session && row.confidence > 0.0)
  {
    assert row in init + [row];
    if IsLearned(init, live, s) {
      var r :| r in init && r.session == s && r.confidence > 0.0;
      assert r in init + [row];
    }
  }

  function Scores(l: Learned, order: seq<Session>): (r: seq<Scored<Session>>)
    requires forall s :: s in order ==> s in l.best
    ensures |r| == |order| && forall i :: 0 <= i < |r| ==> r[i] == Scored(order[i], l.best[order[i]])
  {
    seq(|order|, i requires 0 <= i < |order| => Scored(order[i], l.best[order[i]]))
  }

  /** The learned sessions that are not attributed, best first. */
  function LearnedOnly(l: Learned, attributed: seq<Session>): seq<Session>
    requires forall s :: s in l.order ==> s in l.best
  {
    ExceptProperties(l.order, attributed);
    FirstItems(StableDesc(Scores(l, Except(l.order, attributed))), |l.order|)
  }

  lemma LearnedOnlyProperties(l: Learned, attributed: seq<Session>)
    requires Distinct(l.order) && forall s :: s in l.order ==> s in l.best
    ensures var r := LearnedOnly(l, attributed);
      && Distinct(r)
      && (forall s :: s in r <==> s in l.order && s !in attributed)
      && (forall i, j :: 0 <= i < j < |r| ==> l.best[r[i]] >= l.best[r[j]])
  {
    hide Except, StableDesc;
    ExceptProperties(l.order, attributed);
    var order := Except(l.order, attributed);
    var scores := Scores(l, order);
    StableDescSorts(scores);
    StableDescMembers(scores);
    var sorted, r := StableDesc(scores), LearnedOnly(l, attributed);
    forall i | 0 <= i < |sorted| ensures sorted[i].item in order && sorted[i].score == l.best[sorted[i].item] {
      assert sorted[i] in scores;
    }
    forall i, j | 0 <= i < j < |r| ensures r[i] != r[j] {
      assert sorted[i] != sorted[j];
    }
    forall s | s in order ensures s in r {
      var k :| 0 <= k < |order| && order[k] == s;
      assert scores[k] in sorted;
    }
  }

  datatype Shortlist = Shortlist(l0: seq<Session>, l1: seq<Session>)

  /** L1: live sessions outside L0 whose profile matches the topic. */
  function ByExpertise(live: seq<Session>, l0: seq<Session>, matches: set<Session>): seq<Session> {
    if live == [] then []
    else
      var before, s := ByExpertise(live[..|live| - 1], l0, matches), live[|live| - 1];
      if s !in l0 && s in matches then before + [s] else before
  }

  lemma {:induction false} ByExpertiseProperties(live: seq<Session>, l0: seq<Session>, matches: set<Session>)
    ensures var r := ByExpertise(live, l0, matches);
      && (forall s :: s in r <==> s in live && s !in l0 && s in matches)
      && (Distinct(live) ==> Distinct(r))
  {
    if live == [] {
    } else {
      ByExpertiseProperties(live[..|live| - 1], l0, matches);
      assert live == live[..|live| - 1] + [live[|live| - 1]];
    }
  }

  /**
   L0 is a cut of the attributed sessions followed by the learned ones, best first; L1 is everyone else whose
   profile matches.
   */
  ghost predicate IsShortlist(
    sl: Shortlist, live: seq<Session>, experts: seq<Expert>, rows: seq<LearnedRow>, matches: set<Session>, limit: int)
  {
    var attributed := Attributed(experts, live);
    var learned := LearnedTable(rows, live);
    && (forall s :: s in learned.order ==> s in learned.best)
    && sl.l0 == Slice(attributed + LearnedOnly(learned, attributed), limit)
    && sl.l1 == ByExpertise(live, sl.l0, matches)
  }

  lemma ShortlistProperties(
    sl: Shortlist, live: seq<Session>, experts: seq<Expert>, rows: seq<LearnedRow>, matches: set<Session>, limit: int)
    requires Distinct(live) && IsShortlist(sl, live, experts, rows, matches, limit)
    ensures Distinct(sl.l0 + sl.l1)
    ensures forall s :: s in sl.l0 ==> s in live && (s in Attributed(experts, live) || IsLearned(rows, live, s))
    ensures forall s :: s in sl.l1 <==> s in live && s !in sl.l0 && s in matches
  {
    hide Attributed, LearnedTable, LearnedOnly, ByExpertise;
    var attributed, learned := Attributed(experts, live), LearnedTable(rows, live);
    AttributedProperties(experts, live);
    LearnedTableRanks(rows, live);
    LearnedOnlyProperties(learned, attributed);
    ByExpertiseProperties(live, sl.l0, matches);
    var only := LearnedOnly(learned, attributed);
    DistinctConcat(attributed, only);
    forall s | s in sl.l0 ensures s in attributed || s in only {
      assert s in attributed + only;
    }
    DistinctConcat(sl.l0, sl.l1);
  }

  predicate IsKnown(experts: seq<Expert>, live: seq<Session>, s: Session) {
    s != "unknown" && s in live && IsExpert(experts, s)
  }

  /** Some row for `s` is above every row for `t`. */
  ghost predicate IsSurer(rows: seq<LearnedRow>, s: Session, t: Session) {
    exists row :: row in rows && row.session == s
                  && forall other :: other in rows && other.session == t ==> other.confidence < row.confidence
  }

  /**
   At most `n` sessions are taken, first known experts and then the surest of the others: nobody is left out
   while there is room, nor for a less entitled one.
   */
  ghost predicate TakesTheBest(
    l0: seq<Session>, live: seq<Session>, experts: seq<Expert>, rows: seq<LearnedRow>, n: nat)
  {
    && |l0| <= n
    && (forall s :: s in l0 ==> IsKnown(experts, live, s) || IsLearned(rows, live, s))
    && (|l0| < n ==> forall s :: IsKnown(experts, live, s) || IsLearned(rows, live, s) ==> s in l0)
    && (forall i, s | 0 <= i < |l0| && !IsKnown(experts, live, l0[i]) ::
          && (IsKnown(experts, live, s) ==> s in l0[..i])
          && (IsLearned(rows, live, s) && IsSurer(rows, s, l0[i]) ==> s in l0[..i]))
  }

  /** What comes before an element of the ranking: every known expert, then every surer session. */
  lemma RankedBefore(
    l: Learned, live: seq<Session>, experts: seq<Expert>, rows: seq<LearnedRow>, i: nat, s: Session)
    requires RanksByBest(l, rows, live)
    requires var attributed := Attributed(experts, live);
      i < |attributed + LearnedOnly(l, attributed)|
    ensures var attributed := Attributed(experts, live);
            var all := attributed + LearnedOnly(l, attributed);
      && (!IsKnown(experts, live, all[i]) && IsKnown(experts, live, s) ==> s in all[..i])
      && (!IsKnown(experts, live, all[i]) && IsLearned(rows, live, s) && IsSurer(rows, s, all[i]) ==> s in all[..i])
  {
    hide Attributed, LearnedOnly, IsLearned;
    var attributed := Attributed(experts, live);
    AttributedProperties(experts, live);
    LearnedOnlyProperties(l, attributed);
    var only := LearnedOnly(l, attributed);
    var all := attributed + only;
    if !IsKnown(experts, live, all[i]) {
      assert forall p :: 0 <= p < |attributed| ==> all[p] in attributed;
      assert all[..i] == attributed + only[..i - |attributed|];
      var t := only[i - |attributed|];
      if IsLearned(rows, live, s) && IsSurer(rows, s, t) && s !in attributed {
        var row :| row in rows && row.session == s
          && forall other :: other in rows && other.session == t ==> other.confidence < row.confidence;
        assert t in only && LearnedRow(t, l.best[t]) in rows;
        assert l.best[t] < l.best[s];
        var j :| 0 <= j < |only| && only[j] == s;
      }
    }
  }

  lemma ShortlistTakesTheBest(
    sl: Shortlist, live: seq<Session>, experts: seq<Expert>, rows: seq<LearnedRow>, matches: set<Session>, n: int)
    requires IsShortlist(sl, live, experts, rows, matches, n) && n >= 0
    ensures TakesTheBest(sl.l0, live, experts, rows, n)
  {
    hide Attributed, LearnedTable, LearnedOnly, ByExpertise, IsLearned, IsSurer, IsKnown;
    var attributed, learned := Attributed(experts, live), LearnedTable(rows, live);
    var only := LearnedOnly(learned, attributed);
    var all := attributed + only;
    LearnedTableRanks(rows, live);
    RankedIsEntitled(learned, live, experts, rows);
    SliceIsPrefix(all, n);
    forall i, s | 0 <= i < |sl.l0|
      ensures !IsKnown(experts, live, sl.l0[i]) && IsKnown(experts, live, s) ==> s in sl.l0[..i]
      ensures !IsKnown(experts, live, sl.l0[i]) && IsLearned(rows, live, s) && IsSurer(rows, s, sl.l0[i]) ==>
                s in sl.l0[..i]
    {
      assert sl.l0[..i] == all[..i];
      RankedBefore(learned, live, experts, rows, i, s);
    }
    if |sl.l0| < n {
      assert sl.l0 == all;
    }
  }

  lemma RankedIsEntitled(l: Learned, live: seq<Session>, experts: seq<Expert>, rows: seq<LearnedRow>)
    requires RanksByBest(l, rows, live)
    ensures var attributed := Attributed(experts, live);
      forall s :: s in attributed + LearnedOnly(l, attributed) <==>
                  IsKnown(experts, live, s) || IsLearned(rows, live, s)
  {
    hide LearnedOnly;
    AttributedProperties(experts, live);
    LearnedOnlyProperties(l, Attributed(experts, live));
  }

  /** `order` and `best` are the parts of the table built so far. */
  method LearnedSessions(rows: seq<LearnedRow>, live: seq<Session>) returns (l: Learned)
    ensures l == LearnedTable(rows, live)
  {
    var order, best := [], map[];
    for i := 0 to |rows|
      invariant Learned(order, best) == LearnedTable(rows[..i], live)
    {
      assert rows[..i + 1][..i] == rows[..i];
      var row := rows[i];
      if row.session in live {
        var current := if row.session in best then best[row.session] else 0.0;
        if row.confidence > current {
          if row.session !in best {
            order := order + [row.session];
          }
          best := best[row.session := row.confidence];
        }
      }
    }
    assert rows[..|rows|] == rows;
    l := Learned(order, best);
  }

  method ExceptLoop(s: seq<Session>, dropped: seq<Session>) returns (r: seq<Session>)
    ensures r == Except(s, dropped)
  {
    r := [];
    for i := 0 to |s|
      invariant r == Except(s[..i], dropped)
    {
      assert s[..i + 1] == s[..i] + [s[i]];
      ExceptOfAppend(s[..i], s[i], dropped);
      if s[i] !in dropped {
        r := r + [s[i]];
      }
    }
    assert s[..|s|] == s;
  }

  method FindExperts(experts: seq<Expert>, live: seq<Session>) returns (r: seq<Session>)
    ensures r == Attributed(experts, live)
  {
    r := [];
    for i := 0 to |experts|
      invariant r == Attributed(experts[..i], live)
    {
      assert experts[..i + 1][..i] == experts[..i];
      var s := experts[i].session;
      if s != "unknown" && s in live && s !in r {
        r := r + [s];
      }
    }
    assert experts[..|experts|] == experts;
  }

  method MatchProfiles(live: seq<Session>, l0: seq<Session>, matches: set<Session>) returns (r: seq<Session>)
    ensures r == ByExpertise(live, l0, matches)
  {
    r := [];
    for i := 0 to |live|
      invariant r == ByExpertise(live[..i], l0, matches)
    {
      assert live[..i + 1][..i] == live[..i];
      if live[i] !in l0 && live[i] in matches {
        r := r + [live[i]];
      }
    }
    assert live[..|live|] == live;
  }

  method BuildShortlist(
    live: seq<Session>, experts: seq<Expert>, rows: seq<LearnedRow>, matches: set<Session>, limit: int)
    returns (sl: Shortlist)
    ensures IsShortlist(sl, live, experts, rows, matches, limit)
    ensures limit >= 0 ==> TakesTheBest(sl.l0, live, experts, rows, limit)
    ensures forall s :: s in sl.l1 <==> s in live && s !in sl.l0 && s in matches
  {
    hide Attributed, LearnedTable, ByExpertise, Except, StableDesc, TakesTheBest;
    var attributed := FindExperts(experts, live);
    var learned := LearnedSessions(rows, live);
    LearnedTableRanks(rows, live);
    var only := ExceptLoop(learned.order, attributed);
    ExceptProperties(learned.order, attributed);
    var scores := Scores(learned, only);
    var table := new Scored<Session>[|scores|](i requires 0 <= i < |scores| => scores[i]);
    assert table[..] == scores;
    SortDescending(table);
    var l0 := Slice(attributed + FirstItems(table[..], |learned.order|), limit);
    var l1 := MatchProfiles(live, l0, matches);
    sl := Shortlist(l0, l1);
    ByExpertiseProperties(live, l0, matches);
    if limit >= 0 {
      ShortlistTakesTheBest(sl, live, experts, rows, matches, limit);
    }
  }

  // ---- Budget and gate ----

  /** Some moment between `from` and `to` at which one more delivery to `s` fitted its budget. */
  ghost predicate Afforded(log: seq<Charge>, s: Session, from: Time, to: Time) {
    exists t :: from <= t <= to && HourSpend(log, s, t) + DELIVERY_COST_TOKENS <= BUDGET_LIMIT_TOKENS
  }

  ghost predicate OverBudget(log: seq<Charge>, s: Session, from: Time, to: Time) {
    exists t :: from <= t <= to && HourSpend(log, s, t) + DELIVERY_COST_TOKENS > BUDGET_LIMIT_TOKENS
  }

  /** Every session of `asked` was checked against its budget; `over` are those without room. */
  ghost predicate Checked(log: seq<Charge>, asked: seq<Session>, over: seq<Session>, from: Time, to: Time) {
    && Distinct(over)
    && (forall s :: s in over ==> s in asked && OverBudget(log, s, from, to))
    && (forall s :: s in asked && s !in over ==> Afforded(log, s, from, to))
  }

  /** `after` adds one delivery charge for each session of `rs`, in that order. */
  ghost predicate Charged(before: seq<Charge>, after: seq<Charge>, rs: seq<Session>, from: Time, to: Time) {
    if rs == [] then after == before
    else
      && after != []
      && var c := after[|after| - 1];
         && c.session == rs[|rs| - 1] && c.tokens == DELIVERY_COST_TOKENS && from <= c.ts <= to
         && Charged(before, after[..|after| - 1], rs[..|rs| - 1], from, to)
  }

  lemma {:induction false} ChargedLater(
    before: seq<Charge>, after: seq<Charge>, rs: seq<Session>, from: Time, from': Time, to: Time, to': Time)
    requires Charged(before, after, rs, from, to) && from' <= from && to <= to'
    ensures Charged(before, after, rs, from', to')
  {
    if rs == [] {
    } else {
      ChargedLater(before, after[..|after| - 1], rs[..|rs| - 1], from, from', to, to');
    }
  }

  lemma ChargedOneMore(
    before: seq<Charge>, after: seq<Charge>, rs: seq<Session>, from: Time, to: Time, c: Charge)
    requires Charged(before, after, rs, from, to)
    requires to <= c.ts && from <= c.ts && c.tokens == DELIVERY_COST_TOKENS
    ensures Charged(before, after + [c], rs + [c.session], from, c.ts)
  {
    ChargedLater(before, after, rs, from, from, to, c.ts);
    assert (after + [c])[..|after|] == after && (rs + [c.session])[..|rs|] == rs;
  }

  lemma {:induction false} ChargedTwice(
    before: seq<Charge>, mid: seq<Charge>, after: seq<Charge>, rs: seq<Session>, more: seq<Session>,
    from: Time, to: Time)
    requires Charged(before, mid, rs, from, to) && Charged(mid, after, more, from, to)
    ensures Charged(before, after, rs + more, from, to)
  {
    if more == [] {
      assert rs + more == rs;
    } else {
      ChargedTwice(before, mid, after[..|after| - 1], rs, more[..|more| - 1], from, to);
      assert (rs + more)[..|rs + more| - 1] == rs + more[..|more| - 1];
    }
  }

  /** Charges to other sessions do not count. */
  lemma {:induction false} OthersDoNotCount(
    before: seq<Charge>, after: seq<Charge>, rs: seq<Session>, from: Time, to: Time, s: Session, t: Time)
    requires Charged(before, after, rs, from, to) && s !in rs
    ensures HourSpend(after, s, t) == HourSpend(before, s, t)
  {
    if rs == [] {
    } else {
      assert rs[|rs| - 1] in rs;
      OthersDoNotCount(before, after[..|after| - 1], rs[..|rs| - 1], from, to, s, t);
    }
  }

  lemma CheckedOneMore(
    log: seq<Charge>, asked: seq<Session>, over: seq<Session>, from: Time, to: Time, s: Session, now: Time, ok: bool)
    requires Checked(log, asked, over, from, to)
    requires s !in asked && from <= to <= now
    requires ok <==> HourSpend(log, s, now) + DELIVERY_COST_TOKENS <= BUDGET_LIMIT_TOKENS
    ensures Checked(log, asked + [s], if ok then over else over + [s], from, now)
  {
    hide HourSpend;
    var over' := if ok then over else over + [s];
    forall r | r in over' ensures r in asked + [s] && OverBudget(log, r, from, now) {
      if r in over {
        var t :| from <= t <= to && HourSpend(log, r, t) + DELIVERY_COST_TOKENS > BUDGET_LIMIT_TOKENS;
      }
    }
    forall r | r in asked + [s] && r !in over' ensures Afforded(log, r, from, now) {
      if r in asked {
        var t :| from <= t <= to && HourSpend(log, r, t) + DELIVERY_COST_TOKENS <= BUDGET_LIMIT_TOKENS;
      }
    }
  }

  lemma CheckedLater(
    log: seq<Charge>, asked: seq<Session>, over: seq<Session>, from: Time, to: Time, later: Time)
    requires Checked(log, asked, over, from, to) && to <= later
    ensures Checked(log, asked, over, from, later)
  {
    hide HourSpend;
    forall r | r in over ensures OverBudget(log, r, from, later) {
      var t :| from <= t <= to && HourSpend(log, r, t) + DELIVERY_COST_TOKENS > BUDGET_LIMIT_TOKENS;
    }
    forall r | r in asked && r !in over ensures Afforded(log, r, from, later) {
      var t :| from <= t <= to && HourSpend(log, r, t) + DELIVERY_COST_TOKENS <= BUDGET_LIMIT_TOKENS;
    }
  }

  /** The position of the first `x`. */
  method IndexOf(s: seq<Session>, x: Session) returns (k: nat)
    requires x in s
    ensures k < |s| && s[k] == x && x !in s[..k]
  {
    k := 0;
    while s[k] != x
      invariant k < |s| && x in s && x !in s[..k]
      decreases |s| - k
    {
      assert s[..k + 1] == s[..k] + [s[k]];
      assert s[..|s|] == s;
      k := k + 1;
    }
  }

  /** Removes `x`, which follows the sessions of `kept`, from the list still to be checked. */
  method Splice(s: seq<Session>, x: Session, ghost kept: seq<Session>, ghost short: seq<Session>, ghost i: nat)
    returns (r: seq<Session>)
    requires i < |short| && x == short[i] && x !in kept && s == kept + short[i..]
    ensures r == kept + short[i + 1..]
  {
    assert s[|kept|] == x;
    var k := IndexOf(s, x);
    assert s[..|kept|] == kept;
    assert k == |kept|;
    r := s[..k] + s[k + 1..];
  }

  /** The gate map without the sessions of `over`. */
  function Ungated(gates: map<Session, Layer>, over: seq<Session>): map<Session, Layer> {
    map s | s in gates && s !in over :: gates[s]
  }

  lemma UngatedOneMore(gates: map<Session, Layer>, over: seq<Session>, s: Session)
    ensures Ungated(gates, over + [s]) == Ungated(gates, over) - {s}
  {
  }

  lemma NoneUngated(gates: map<Session, Layer>)
    ensures Ungated(gates, []) == gates
  {
  }

  /**
   One checked delivery. When the session has room it is charged, and the charge keeps every window of one
   hour within the limit.
   */
  method CheckAndCharge(budgets: TokenBudgets, s: Session, charge: bool) returns (ok: bool, ghost now: Time)
    requires budgets.Valid() && Bounded(budgets.log)
    modifies budgets, budgets.clock
    ensures budgets.Valid() && Bounded(budgets.log)
    ensures old(budgets.clock.time) <= now <= budgets.clock.time
    ensures ok <==> HourSpend(old(budgets.log), s, now) + DELIVERY_COST_TOKENS <= BUDGET_LIMIT_TOKENS
    ensures budgets.log ==
            if ok && charge then old(budgets.log) + [Charge(s, budgets.clock.time, DELIVERY_COST_TOKENS)]
            else old(budgets.log)
  {
    hide Bounded, HourSpend;
    ok, now := budgets.HasBudget(s, DELIVERY_COST_TOKENS);
    if ok && charge {
      LogNotLater(budgets);
      budgets.ConsumeBudget(s, DELIVERY_COST_TOKENS);
      ChargeKeepsBound(old(budgets.log), Charge(s, budgets.clock.time, DELIVERY_COST_TOKENS), now);
    }
  }

  lemma LogNotLater(budgets: TokenBudgets)
    requires budgets.Valid()
    ensures forall c :: c in budgets.log ==> c.ts <= budgets.clock.time
  {
  }

  /** Of the sessions `asked` so far those in `over` had no room, and those in `charged` were charged. */
  ghost predicate BudgetInv(
    before: seq<Charge>, log: seq<Charge>, asked: seq<Session>, charged: seq<Session>, over: seq<Session>,
    from: Time, now: Time)
  {
    && from <= now
    && (forall s :: s in charged ==> s in asked)
    && Checked(before, asked, over, from, now)
    && Charged(before, log, charged, from, now)
  }

  lemma BudgetStart(log: seq<Charge>, now: Time)
    ensures BudgetInv(log, log, [], [], [], now, now)
  {
  }

  lemma BudgetStep(
    before: seq<Charge>, log: seq<Charge>, asked: seq<Session>, charged: seq<Session>, over: seq<Session>,
    from: Time, mid: Time, s: Session, checked: Time, ok: bool, charge: bool, now: Time)
    requires BudgetInv(before, log, asked, charged, over, from, mid) && s !in asked
    requires mid <= checked <= now
    requires ok <==> HourSpend(log, s, checked) + DELIVERY_COST_TOKENS <= BUDGET_LIMIT_TOKENS
    ensures BudgetInv(
              before, if ok && charge then log + [Charge(s, now, DELIVERY_COST_TOKENS)] else log, asked + [s],
              if ok && charge then charged + [s] else charged, if ok then over else over + [s], from, now)
    ensures s !in over
  {
    hide HourSpend, Charged;
    OthersDoNotCount(before, log, charged, from, mid, s, checked);
    CheckedOneMore(before, asked, over, from, mid, s, checked, ok);
    CheckedLater(before, asked + [s], if ok then over else over + [s], from, checked, now);
    if ok && charge {
      ChargedOneMore(before, log, charged, from, mid, Charge(s, now, DELIVERY_COST_TOKENS));
    } else {
      ChargedLater(before, log, charged, from, from, mid, now);
    }
  }

  /** L3 on the shortlist: sessions without room leave `combined` and the gate map, the others are charged. */
  method ApplyBudget(budgets: TokenBudgets, short: seq<Session>, gates: map<Session, Layer>)
    returns (combined: seq<Session>, gatedBy: map<Session, Layer>, over: seq<Session>)
    requires budgets.Valid() && Bounded(budgets.log) && Distinct(short)
    modifies budgets, budgets.clock
    ensures budgets.Valid() && Bounded(budgets.log)
    ensures combined == Except(short, over)
    ensures gatedBy == Ungated(gates, over)
    ensures BudgetInv(
              old(budgets.log), budgets.log, short, combined, over, old(budgets.clock.time), budgets.clock.time)
  {
    hide Bounded, HourSpend, BudgetInv, Except, Ungated, Faithful, Distinct;
    ghost var log0, from := budgets.log, budgets.clock.time;
    NoneUngated(gates);
    combined, gatedBy, over := short, gates, [];
    BudgetStart(budgets.log, budgets.clock.time);
    assert short[..0] == [] && Except([], []) == [] by { NothingExcepted(); }
    for i := 0 to |short|
      invariant budgets.Valid() && Bounded(budgets.log)
      invariant BudgetInv(
                  log0, budgets.log, short[..i], Except(short[..i], over), over,
                  from, budgets.clock.time)
      invariant combined == Except(short[..i], over) + short[i..]
      invariant gatedBy == Ungated(gates, over)
    {
      var s := short[i];
      ghost var kept, before, mid := Except(short[..i], over), budgets.log, budgets.clock.time;
      DistinctSplit(short, i);
      ExceptProperties(short[..i], over);
      ExceptOneMore(short[..i], over, s);
      var ok, now := CheckAndCharge(budgets, s, true);
      BudgetStep(
        log0, before, short[..i], kept, over, from, mid, s, now, ok, true,
        budgets.clock.time);
      if !ok {
        combined := Splice(combined, s, kept, short, i);
        UngatedOneMore(gates, over, s);
        gatedBy := gatedBy - {s};
        over := over + [s];
      } else {
        MoveOver(kept, short, i);
      }
      ExceptOfAppend(short[..i], s, over);
    }
    assert short[..|short|] == short;
  }

  lemma NothingExcepted()
    ensures Except([], []) == []
  {
  }

  /** The candidates the gate says can help; one it gives no answer for is not asked to. */
  function Willing(candidates: seq<Session>, gate: map<Session, bool>): seq<Session> {
    if candidates == [] then []
    else
      var before, s := Willing(candidates[..|candidates| - 1], gate), candidates[|candidates| - 1];
      if s in gate && gate[s] then before + [s] else before
  }

  lemma {:induction false} WillingProperties(candidates: seq<Session>, gate: map<Session, bool>)
    ensures forall s :: s in Willing(candidates, gate) <==> s in candidates && s in gate && gate[s]
    ensures |Willing(candidates, gate)| <= |candidates|
    ensures Distinct(candidates) ==> Distinct(Willing(candidates, gate))
  {
    if candidates == [] {
    } else {
      WillingProperties(candidates[..|candidates| - 1], gate);
      assert candidates == candidates[..|candidates| - 1] + [candidates[|candidates| - 1]];
    }
  }

  lemma WillingOfAppend(candidates: seq<Session>, s: Session, gate: map<Session, bool>)
    ensures Willing(candidates + [s], gate) ==
            if s in gate && gate[s] then Willing(candidates, gate) + [s] else Willing(candidates, gate)
  {
    assert (candidates + [s])[..|candidates|] == candidates;
  }

  /** The candidates that are admitted: within budget and able to help. */
  function Admitted(candidates: seq<Session>, gate: map<Session, bool>, over: seq<Session>): seq<Session> {
    Except(Willing(candidates, gate), over)
  }

  lemma AdmittedOneMore(
    candidates: seq<Session>, gate: map<Session, bool>, over: seq<Session>, s: Session, ok: bool)
    requires s !in candidates && s !in over
    ensures Admitted(candidates + [s], gate, if ok then over else over + [s]) ==
            if ok && s in gate && gate[s] then Admitted(candidates, gate, over) + [s]
            else Admitted(candidates, gate, over)
  {
    hide Willing, Except;
    WillingProperties(candidates, gate);
    WillingOfAppend(candidates, s, gate);
    ExceptOneMore(Willing(candidates, gate), over, s);
    ExceptOfAppend(Willing(candidates, gate), s, if ok then over else over + [s]);
  }

  lemma AdmittedProperties(candidates: seq<Session>, gate: map<Session, bool>, over: seq<Session>)
    ensures forall s :: s in Admitted(candidates, gate, over) <==> s in candidates && s in gate && gate[s] && s !in over
    ensures |Admitted(candidates, gate, over)| <= |candidates|
    ensures Distinct(candidates) ==> Distinct(Admitted(candidates, gate, over))
  {
    WillingProperties(candidates, gate);
    ExceptProperties(Willing(candidates, gate), over);
  }

  function WithL2(gates: map<Session, Layer>, admits: seq<Session>): map<Session, Layer> {
    gates + map s | s in admits :: Delivery.L2
  }

  lemma WithOneMoreL2(gates: map<Session, Layer>, admits: seq<Session>, s: Session)
    ensures WithL2(gates, admits + [s]) == WithL2(gates, admits)[s := Delivery.L2]
  {
  }

  lemma NoneWithL2(gates: map<Session, Layer>)
    ensures WithL2(gates, []) == gates
  {
  }

  /** What the L2 loop leaves in the budgets, at either urgency. */
  ghost predicate GateInv(
    high: bool, before: seq<Charge>, log: seq<Charge>, asked: seq<Session>, charged: seq<Session>,
    over: seq<Session>, from: Time, now: Time)
  {
    if high then over == [] && log == before && from <= now
    else BudgetInv(before, log, asked, charged, over, from, now)
  }

  lemma GateNotOver(
    high: bool, before: seq<Charge>, log: seq<Charge>, asked: seq<Session>, charged: seq<Session>,
    over: seq<Session>, from: Time, now: Time, s: Session)
    requires GateInv(high, before, log, asked, charged, over, from, now) && s !in asked
    ensures s !in over
  {
  }

  /** L2: each candidate with room is put to the gate and joins `combined` when the gate admits it. */
  method AskGate(
    budgets: TokenBudgets, high: bool, candidates: seq<Session>, gate: map<Session, bool>,
    combined: seq<Session>, gates: map<Session, Layer>)
    returns (recipients: seq<Session>, gatedBy: map<Session, Layer>, over: seq<Session>)
    requires budgets.Valid() && Bounded(budgets.log) && Distinct(candidates)
    modifies budgets, budgets.clock
    ensures budgets.Valid() && Bounded(budgets.log)
    ensures recipients == combined + Admitted(candidates, gate, over)
    ensures gatedBy == WithL2(gates, Admitted(candidates, gate, over))
    ensures GateInv(
              high, old(budgets.log), budgets.log, candidates, Admitted(candidates, gate, over), over,
              old(budgets.clock.time), budgets.clock.time)
  {
    hide Bounded, HourSpend, BudgetInv, Admitted, WithL2, Faithful, Distinct;
    ghost var log0, from := budgets.log, budgets.clock.time;
    recipients, gatedBy, over := combined, gates, [];
    BudgetStart(budgets.log, budgets.clock.time);
    NoneWithL2(gates);
    assert candidates[..0] == [] && Admitted([], gate, []) == [] by { NothingAdmitted(gate); }
    for i := 0 to |candidates|
      invariant budgets.Valid() && Bounded(budgets.log)
      invariant recipients == combined + Admitted(candidates[..i], gate, over)
      invariant gatedBy == WithL2(gates, Admitted(candidates[..i], gate, over))
      invariant GateInv(
                  high, log0, budgets.log, candidates[..i], Admitted(candidates[..i], gate, over), over,
                  from, budgets.clock.time)
    {
      var s := candidates[i];
      ghost var admits, before, mid := Admitted(candidates[..i], gate, over), budgets.log, budgets.clock.time;
      DistinctSplit(candidates, i);
      GateNotOver(
        high, log0, before, candidates[..i], admits, over, from, mid, s);
      var admit := s in gate && gate[s];
      var ok := true;
      if !high {
        ghost var now;
        ok, now := CheckAndCharge(budgets, s, admit);
        BudgetStep(
          log0, before, candidates[..i], admits, over, from, mid, s, now, ok, admit,
          budgets.clock.time);
      }
      AdmittedOneMore(candidates[..i], gate, over, s, ok);
      WithOneMoreL2(gates, admits, s);
      if !ok {
        over := over + [s];
      } else if admit {
        gatedBy := gatedBy[s := Delivery.L2];
        recipients := recipients + [s];
      }
    }
    assert candidates[..|candidates|] == candidates;
  }

  lemma NothingAdmitted(gate: map<Session, bool>)
    ensures Admitted([], gate, []) == []
  {
  }

  // ---- The whole call ----

  datatype Outcome = Outcome(recipients: seq<Session>, gatedBy: map<Session, Layer>, overBudget: seq<Session>)

  function AdmittingLayer(sl: Shortlist, s: Session): Layer {
    if s in sl.l0 then Delivery.L0 else if s in sl.l1 then Delivery.L1 else Delivery.L2
  }

  /** Every shortlisted session with the layer that put it there, also one cut off by the maximum. */
  function Gates(sl: Shortlist): map<Session, Layer> {
    map s | s in sl.l0 + sl.l1 :: AdmittingLayer(sl, s)
  }

  /** L2 candidates: live sessions outside the shortlist, as many as there is room left. */
  function Candidates(r: Request, live: seq<Session>, sl: Shortlist, taken: nat): seq<Session> {
    if r.shortlistOnly || taken >= Limit(r) then []
    else Slice(Except(live, sl.l0 + sl.l1), Limit(r) - taken)
  }

  /** `o` is what the call routed to, and `after` the charges once it was done. */
  ghost predicate IsRouting(
    o: Outcome, r: Request, live: seq<Session>, sl: Shortlist, gate: map<Session, bool>,
    before: seq<Charge>, after: seq<Charge>, from: Time, to: Time)
  {
    var short := Slice(sl.l0 + sl.l1, Limit(r));
    var kept := Except(short, o.overBudget);
    var candidates := Candidates(r, live, sl, |kept|);
    var admits := Admitted(candidates, gate, o.overBudget);
    && o.recipients == kept + admits
    && o.gatedBy == WithL2(Ungated(Gates(sl), o.overBudget), admits)
    && (if r.high then o.overBudget == [] && after == before
        else Checked(before, short + candidates, o.overBudget, from, to)
             && Charged(before, after, o.recipients, from, to))
  }

  lemma SliceProperties(s: seq<Session>, n: int)
    ensures forall x :: x in Slice(s, n) ==> x in s
    ensures Distinct(s) ==> Distinct(Slice(s, n))
    ensures n >= 0 ==> |Slice(s, n)| <= n
  {
  }

  lemma CandidatesProperties(r: Request, live: seq<Session>, sl: Shortlist, taken: nat)
    requires Distinct(live)
    ensures var c := Candidates(r, live, sl, taken);
      && Distinct(c)
      && (forall s :: s in c ==> s in live && s !in sl.l0 && s !in sl.l1)
      && (c != [] ==> !r.shortlistOnly && taken + |c| <= Limit(r))
  {
    hide Except, Slice;
    ExceptProperties(live, sl.l0 + sl.l1);
    SliceProperties(Except(live, sl.l0 + sl.l1), Limit(r) - taken);
  }

  function Tokens(log: seq<Charge>): nat {
    if log == [] then 0 else Tokens(log[..|log| - 1]) + log[|log| - 1].tokens
  }

  lemma {:induction false} ChargedTokens(
    before: seq<Charge>, after: seq<Charge>, rs: seq<Session>, from: Time, to: Time)
    requires Charged(before, after, rs, from, to)
    ensures Tokens(after) == Tokens(before) + DELIVERY_COST_TOKENS * |rs|
  {
    if rs == [] {
    } else {
      ChargedTokens(before, after[..|after| - 1], rs[..|rs| - 1], from, to);
    }
  }

  /** The history grows by one charge of 5000 tokens for each session, in order, made during the call. */
  ghost predicate AreCharged(before: seq<Charge>, after: seq<Charge>, rs: seq<Session>, from: Time, to: Time) {
    && |after| == |before| + |rs| && before <= after
    && forall k :: |before| <= k < |after| ==>
         after[k].session == rs[k - |before|] && after[k].tokens == 5000 && from <= after[k].ts <= to
  }

  lemma {:induction false} ChargedAre(
    before: seq<Charge>, after: seq<Charge>, rs: seq<Session>, from: Time, to: Time)
    requires Charged(before, after, rs, from, to)
    ensures AreCharged(before, after, rs, from, to)
  {
    if rs == [] {
    } else {
      var init := after[..|after| - 1];
      ChargedAre(before, init, rs[..|rs| - 1], from, to);
      assert after == init + [after[|after| - 1]];
    }
  }

  /**
   Recipients are distinct and live, a session dropped for budget is no recipient and has no gate, each
   recipient's gate is the layer that admitted it, and the tokens charged are exactly 5000 a recipient, or
   none at high urgency.
   */
  lemma RoutingProperties(
    o: Outcome, r: Request, live: seq<Session>, sl: Shortlist, gate: map<Session, bool>,
    before: seq<Charge>, after: seq<Charge>, from: Time, to: Time)
    requires Distinct(live) && Distinct(sl.l0 + sl.l1) && (forall s :: s in sl.l0 + sl.l1 ==> s in live)
    requires IsRouting(o, r, live, sl, gate, before, after, from, to)
    ensures Distinct(o.recipients) && (forall s :: s in o.recipients ==> s in live)
    ensures forall s :: s in o.overBudget ==> s !in o.recipients && s !in o.gatedBy
    ensures forall s :: s in o.recipients ==> s in o.gatedBy && o.gatedBy[s] == AdmittingLayer(sl, s)
    ensures forall s :: s in o.recipients && s !in sl.l0 + sl.l1 ==> !r.shortlistOnly && s in gate && gate[s]
    ensures Tokens(after) == Tokens(before) + (if r.high then 0 else 5000 * |o.recipients|)
    ensures r.high ==> after == before
    ensures !r.high ==> AreCharged(before, after, o.recipients, from, to)
  {
    hide Except, Candidates, Slice, Admitted, Charged, Checked;
    var short := Slice(sl.l0 + sl.l1, Limit(r));
    var kept := Except(short, o.overBudget);
    var candidates := Candidates(r, live, sl, |kept|);
    var admits := Admitted(candidates, gate, o.overBudget);
    SliceProperties(sl.l0 + sl.l1, Limit(r));
    ExceptProperties(short, o.overBudget);
    CandidatesProperties(r, live, sl, |kept|);
    AdmittedProperties(candidates, gate, o.overBudget);
    forall s | s in short ensures s in sl.l0 + sl.l1 {
    }
    DistinctConcat(kept, admits);
    if !r.high {
      ChargedTokens(before, after, o.recipients, from, to);
      ChargedAre(before, after, o.recipients, from, to);
    }
  }

  /**
   Who of the shortlist is asked: exactly those before the cut, and each of them is a recipient or over its budget.
   A maximum of `n` cuts behind the first `n`, a negative one before the last `-n`.
   */
  lemma CutIsExact(
    o: Outcome, r: Request, live: seq<Session>, sl: Shortlist, gate: map<Session, bool>,
    before: seq<Charge>, after: seq<Charge>, from: Time, to: Time)
    requires Distinct(live) && Distinct(sl.l0 + sl.l1)
    requires IsRouting(o, r, live, sl, gate, before, after, from, to)
    ensures CutAt(o, sl.l0 + sl.l1, if Limit(r) >= 0 then Limit(r) else |sl.l0 + sl.l1| + Limit(r))
  {
    hide IsRouting, Slice;
    var listed := sl.l0 + sl.l1;
    var short := Slice(listed, Limit(r));
    SliceIsPrefix(listed, Limit(r));
    InPrefix(listed, |short|);
    forall p | 0 <= p < |listed|
      ensures listed[p] in short <==> listed[p] in o.recipients || listed[p] in o.overBudget
    {
      assert listed[p] in listed;
      AskedFromList(o, r, live, sl, gate, before, after, from, to, listed[p]);
    }
  }

  lemma InPrefix(s: seq<Session>, n: nat)
    requires Distinct(s) && n <= |s|
    ensures forall p :: 0 <= p < |s| ==> (s[p] in s[..n] <==> p < n)
  {
    forall p | 0 <= p < |s| ensures s[p] in s[..n] <==> p < n {
      if s[p] in s[..n] {
        var q :| 0 <= q < n && s[..n][q] == s[p];
      }
      if p < n {
        assert s[..n][p] == s[p];
      }
    }
  }

  /** A shortlisted session is asked exactly when the cut lets it through. */
  lemma AskedFromList(
    o: Outcome, r: Request, live: seq<Session>, sl: Shortlist, gate: map<Session, bool>,
    before: seq<Charge>, after: seq<Charge>, from: Time, to: Time, s: Session)
    requires Distinct(live) && s in sl.l0 + sl.l1
    requires IsRouting(o, r, live, sl, gate, before, after, from, to)
    ensures s in Slice(sl.l0 + sl.l1, Limit(r)) <==> s in o.recipients || s in o.overBudget
  {
    hide Except, Candidates, Slice, Willing, Charged;
    var short := Slice(sl.l0 + sl.l1, Limit(r));
    var kept := Except(short, o.overBudget);
    var candidates := Candidates(r, live, sl, |kept|);
    ExceptProperties(short, o.overBudget);
    CandidatesProperties(r, live, sl, |kept|);
    AdmittedProperties(candidates, gate, o.overBudget);
  }

  ghost predicate CutAt(o: Outcome, listed: seq<Session>, cut: int) {
    forall p :: 0 <= p < |listed| ==> (p < cut <==> listed[p] in o.recipients || listed[p] in o.overBudget)
  }

  lemma {:induction false} ExceptSplits(s: seq<Session>, dropped: seq<Session>, k: nat)
    requires k <= |s|
    ensures Except(s[..k], dropped) <= Except(s, dropped)
  {
    if k == |s| {
      assert s[..k] == s;
    } else {
      ExceptSplits(s[..|s| - 1], dropped, k);
      assert s[..|s| - 1][..k] == s[..k];
    }
  }

  /** Whom the gate is asked about: if `live[j]` is, so is every earlier live session outside the shortlist. */
  lemma GateAsksTheFirst(r: Request, live: seq<Session>, sl: Shortlist, taken: nat, i: nat, j: nat)
    requires Distinct(live) && i < j < |live| && live[j] in Candidates(r, live, sl, taken)
    requires live[i] !in sl.l0 + sl.l1
    ensures live[i] in Candidates(r, live, sl, taken)
  {
    hide Except, Slice;
    var listed := sl.l0 + sl.l1;
    var others := Except(live, listed);
    SliceIsPrefix(others, Limit(r) - taken);
    ExceptSplits(live, listed, j);
    ExceptProperties(live[..j], listed);
    ExceptProperties(live, listed);
    var earlier := Except(live[..j], listed);
    assert live[i] in live[..j];
    var m :| 0 <= m < |earlier| && earlier[m] == live[i];
    var c := Candidates(r, live, sl, taken);
    var q :| 0 <= q < |c| && c[q] == live[j];
    DistinctSplit(live, j);
    assert forall p :: 0 <= p < |earlier| ==> others[p] in earlier;
    assert c[m] == others[m] == live[i];
  }

  /** An admitted session outside the shortlist leaves out no earlier one that the gate would admit. */
  lemma AdmittedInOrder(
    o: Outcome, r: Request, live: seq<Session>, sl: Shortlist, gate: map<Session, bool>,
    before: seq<Charge>, after: seq<Charge>, from: Time, to: Time, i: nat, j: nat)
    requires Distinct(live) && IsRouting(o, r, live, sl, gate, before, after, from, to)
    requires i < j < |live| && live[j] in o.recipients && live[j] !in sl.l0 + sl.l1
    requires live[i] !in sl.l0 + sl.l1 && live[i] in gate && gate[live[i]]
    ensures live[i] in o.recipients || live[i] in o.overBudget
  {
    hide Except, Candidates, Slice, Willing, Charged;
    var short := Slice(sl.l0 + sl.l1, Limit(r));
    var kept := Except(short, o.overBudget);
    var candidates := Candidates(r, live, sl, |kept|);
    SliceProperties(sl.l0 + sl.l1, Limit(r));
    ExceptProperties(short, o.overBudget);
    AdmittedProperties(candidates, gate, o.overBudget);
    GateAsksTheFirst(r, live, sl, |kept|, i, j);
  }

  /** With room for all live sessions nobody the gate would admit is left out. */
  lemma EverybodyIsAsked(
    o: Outcome, r: Request, live: seq<Session>, sl: Shortlist, gate: map<Session, bool>,
    before: seq<Charge>, after: seq<Charge>, from: Time, to: Time, s: Session)
    requires Distinct(live) && Distinct(sl.l0 + sl.l1) && (forall s :: s in sl.l0 + sl.l1 ==> s in live)
    requires IsRouting(o, r, live, sl, gate, before, after, from, to)
    requires |live| <= Limit(r) && !r.shortlistOnly
    requires s in live && (s in sl.l0 + sl.l1 || (s in gate && gate[s]))
    ensures s in o.recipients || s in o.overBudget
  {
    hide Except, Candidates, Slice, Willing, Charged;
    var listed := sl.l0 + sl.l1;
    var short := Slice(listed, Limit(r));
    var kept := Except(short, o.overBudget);
    var others := Except(live, listed);
    SliceIsPrefix(listed, Limit(r));
    ExceptProperties(short, o.overBudget);
    ExceptProperties(live, listed);
    DistinctWithin(listed, live);
    DistinctConcat(kept, others);
    DistinctWithin(kept + others, live);
    CandidatesAre(r, live, sl, |kept|);
    SliceIsPrefix(others, Limit(r) - |kept|);
    AdmittedProperties(Candidates(r, live, sl, |kept|), gate, o.overBudget);
    assert short == listed;
    if s !in listed {
      assert s in others;
    }
  }

  lemma DistinctWithin(a: seq<Session>, b: seq<Session>)
    requires Distinct(a) && Distinct(b) && forall x :: x in a ==> x in b
    ensures |a| <= |b|
  {
    DistinctCardinality(a);
    DistinctCardinality(b);
    SubsetSize(set x | x in a, set x | x in b);
  }

  /** Without a maximum five sessions are reached at most, and the first five of the shortlist unless over budget. */
  lemma AbsentMaximum(
    o: Outcome, r: Request, live: seq<Session>, sl: Shortlist, gate: map<Session, bool>,
    before: seq<Charge>, after: seq<Charge>, from: Time, to: Time)
    requires Distinct(live) && Distinct(sl.l0 + sl.l1) && r.maxRecipients == None
    requires IsRouting(o, r, live, sl, gate, before, after, from, to)
    ensures |o.recipients| <= 5 && CutAt(o, sl.l0 + sl.l1, 5)
  {
    hide IsRouting;
    RecipientsAtMostLimit(o, r, live, sl, gate, before, after, from, to);
    CutIsExact(o, r, live, sl, gate, before, after, from, to);
  }

  /**
   A call that wants at least one recipient, or leaves the maximum out, and finds a known live expert reaches one
   first of all, unless the best of them is over budget, which no one is at high urgency.
   */
  lemma ExpertIsAsked(
    o: Outcome, r: Request, live: seq<Session>, sl: Shortlist, gate: map<Session, bool>,
    before: seq<Charge>, after: seq<Charge>, from: Time, to: Time,
    experts: seq<Expert>, rows: seq<LearnedRow>, matches: set<Session>, s: Session)
    requires Distinct(live) && IsShortlist(sl, live, experts, rows, matches, Limit(r))
    requires IsRouting(o, r, live, sl, gate, before, after, from, to)
    requires (r.maxRecipients.Some? ==> r.maxRecipients.value >= 0) && IsKnown(experts, live, s)
    ensures sl.l0 != [] && IsKnown(experts, live, sl.l0[0])
    ensures sl.l0[0] in o.recipients || (!r.high && OverBudget(before, sl.l0[0], from, to))
  {
    hide Except, Candidates, Slice, Willing, Charged, OverBudget, IsShortlist, IsKnown, WithL2;
    ShortlistDistinct(sl, live, experts, rows, matches, Limit(r));
    ShortlistTakesTheBest(sl, live, experts, rows, matches, Limit(r));
    CutIsExact(o, r, live, sl, gate, before, after, from, to);
    assert s in sl.l0[..0] || sl.l0 == [] || IsKnown(experts, live, sl.l0[0]);
    assert (sl.l0 + sl.l1)[0] == sl.l0[0];
  }

  /** The recipients number at most the effective maximum exactly when that is not negative. */
  lemma RecipientsAtMostLimit(
    o: Outcome, r: Request, live: seq<Session>, sl: Shortlist, gate: map<Session, bool>,
    before: seq<Charge>, after: seq<Charge>, from: Time, to: Time)
    requires Distinct(live)
    requires IsRouting(o, r, live, sl, gate, before, after, from, to)
    ensures |o.recipients| <= Limit(r) <==> Limit(r) >= 0
  {
    hide Except, Candidates, Slice, Admitted, Charged, Checked;
    var short := Slice(sl.l0 + sl.l1, Limit(r));
    var kept := Except(short, o.overBudget);
    var candidates := Candidates(r, live, sl, |kept|);
    SliceProperties(sl.l0 + sl.l1, Limit(r));
    ExceptProperties(short, o.overBudget);
    CandidatesProperties(r, live, sl, |kept|);
    AdmittedProperties(candidates, gate, o.overBudget);
  }

  /**
   What the maximum asked for means for one call: a positive one is kept; zero lets up to five sessions in, so
   it is kept only by a call that reaches nobody; a negative one never is.
   */
  lemma RecipientsAtMostAsked(
    o: Outcome, r: Request, n: int, live: seq<Session>, sl: Shortlist, gate: map<Session, bool>,
    before: seq<Charge>, after: seq<Charge>, from: Time, to: Time)
    requires Distinct(live) && r.maxRecipients == Some(n)
    requires IsRouting(o, r, live, sl, gate, before, after, from, to)
    ensures |o.recipients| <= n <==> n > 0 || (n == 0 && o.recipients == [])
    ensures n == 0 ==> |o.recipients| <= DEFAULT_MAX_RECIPIENTS
  {
    hide IsRouting;
    RecipientsAtMostLimit(o, r, live, sl, gate, before, after, from, to);
  }

  /** `o` is the outcome of some call with this request. */
  ghost predicate IsOutcome(o: Outcome, r: Request) {
    exists live, experts, rows, matches, sl, gate, before, after, from, to ::
      && Distinct(live) && IsShortlist(sl, live, experts, rows, matches, Limit(r))
      && IsRouting(o, r, live, sl, gate, before, after, from, to)
  }

  lemma OutcomeWithinAsked(o: Outcome, r: Request, n: int)
    requires n > 0 && r.maxRecipients == Some(n) && IsOutcome(o, r)
    ensures |o.recipients| <= n
  {
    hide IsShortlist, IsRouting, Limit;
    var live, experts, rows, matches, sl, gate, before, after, from, to :|
      && Distinct(live) && IsShortlist(sl, live, experts, rows, matches, Limit(r))
      && IsRouting(o, r, live, sl, gate, before, after, from, to);
    RecipientsAtMostAsked(o, r, n, live, sl, gate, before, after, from, to);
  }

  /** Every call keeps the maximum it was asked for exactly when that maximum is positive. */
  lemma MaximumIsKept(n: int)
    ensures n > 0 <==>
            forall o: Outcome, r: Request :: r.maxRecipients == Some(n) && IsOutcome(o, r) ==> |o.recipients| <= n
  {
    hide IsOutcome, WithL2, Ungated, Gates;
    if n > 0 {
      forall o: Outcome, r: Request | r.maxRecipients == Some(n) && IsOutcome(o, r) ensures |o.recipients| <= n {
        OutcomeWithinAsked(o, r, n);
      }
    } else {
      var none: seq<Session> := [];
      var s := if n == 0 then ["a"] else none;
      var sl := Shortlist(s, none);
      var o, r := Outcome(s, WithL2(Ungated(Gates(sl), none), none), none), Request(true, Some(n), true);
      if n == 0 {
        ExpertIsReached("a", n, sl, o, none, []);
      } else {
        NobodyIsReached(n, sl, o, none, []);
      }
      assert r.maxRecipients == Some(n) && IsOutcome(o, r) && |o.recipients| > n;
    }
  }

  /** A call for one live expert, at high urgency and without the gate, reaches that expert. */
  lemma ExpertIsReached(s: Session, n: int, sl: Shortlist, o: Outcome, none: seq<Session>, charges: seq<Charge>)
    requires s != "unknown" && none == [] && charges == [] && n >= 0
    requires sl == Shortlist([s], none)
    requires o == Outcome([s], WithL2(Ungated(Gates(sl), none), none), none)
    ensures IsOutcome(o, Request(true, Some(n), true))
  {
    var r, experts := Request(true, Some(n), true), [Expert(s, 1)];
    var rows: seq<LearnedRow> := [];
    var noMatch: set<Session> := {};
    var gate: map<Session, bool> := map[];
    var live := [s];
    assert Attributed(experts, live) == live by {
      assert experts[..0] == [] && Attributed([], live) == [];
    }
    assert live == none + [s] && live[..0] == none;
    assert ByExpertise(none, live, noMatch) == none && ByExpertise(live, live, noMatch) == none;
    ExceptOfAppend(none, s, none);
    assert Except(none, none) == none && Except(live, none) == live;
    assert LearnedTable(rows, live).order == none;
    assert LearnedOnly(LearnedTable(rows, live), live) == none;
    assert live + none == live && Slice(live, Limit(r)) == live;
    assert Admitted(none, gate, none) == none;
    assert IsShortlist(sl, live, experts, rows, noMatch, Limit(r));
    assert IsRouting(o, r, live, sl, gate, charges, charges, 0, 0);
  }

  /** A call with nobody to ask reaches nobody, which for a negative maximum is one too many. */
  lemma NobodyIsReached(n: int, sl: Shortlist, o: Outcome, none: seq<Session>, charges: seq<Charge>)
    requires none == [] && charges == [] && sl == Shortlist(none, none)
    requires o == Outcome(none, WithL2(Ungated(Gates(sl), none), none), none)
    ensures IsOutcome(o, Request(true, Some(n), true))
  {
    var r := Request(true, Some(n), true);
    var experts: seq<Expert> := [];
    var rows: seq<LearnedRow> := [];
    var noMatch: set<Session> := {};
    var gate: map<Session, bool> := map[];
    assert Attributed(experts, none) == none && ByExpertise(none, none, noMatch) == none;
    assert LearnedTable(rows, none).order == none;
    assert LearnedOnly(LearnedTable(rows, none), none) == none;
    assert none + none == none && Slice(none, Limit(r)) == none;
    assert Except(none, none) == none && Admitted(none, gate, none) == none;
    assert IsShortlist(sl, none, experts, rows, noMatch, Limit(r));
    assert IsRouting(o, r, none, sl, gate, charges, charges, 0, 0);
  }

  lemma {:induction false} ExceptSame(s: seq<Session>, dropped: seq<Session>, dropped': seq<Session>)
    requires forall x :: x in s ==> (x in dropped <==> x in dropped')
    ensures Except(s, dropped) == Except(s, dropped')
  {
    if s == [] {
    } else {
      assert s[|s| - 1] in s;
      ExceptSame(s[..|s| - 1], dropped, dropped');
    }
  }

  lemma CheckedTwice(
    before: seq<Charge>, mid: seq<Charge>, short: seq<Session>, kept: seq<Session>, over: seq<Session>,
    candidates: seq<Session>, over': seq<Session>, from: Time, t: Time, to: Time)
    requires Checked(before, short, over, from, t) && Checked(mid, candidates, over', t, to) && from <= t <= to
    requires Charged(before, mid, kept, from, t)
    requires forall s :: s in candidates ==> s !in short && s !in kept
    ensures Checked(before, short + candidates, over + over', from, to)
  {
    hide Charged, HourSpend;
    DistinctConcat(over, over');
    forall s | s in over + over' ensures s in short + candidates && OverBudget(before, s, from, to) {
      if s in over {
        var u :| from <= u <= t && HourSpend(before, s, u) + DELIVERY_COST_TOKENS > BUDGET_LIMIT_TOKENS;
      } else {
        var u :| t <= u <= to && HourSpend(mid, s, u) + DELIVERY_COST_TOKENS > BUDGET_LIMIT_TOKENS;
        OthersDoNotCount(before, mid, kept, from, t, s, u);
      }
    }
    forall s | s in short + candidates && s !in over + over' ensures Afforded(before, s, from, to) {
      if s in short {
        assert s !in over;
        var u :| from <= u <= t && HourSpend(before, s, u) + DELIVERY_COST_TOKENS <= BUDGET_LIMIT_TOKENS;
      } else {
        assert s !in over';
        var u :| t <= u <= to && HourSpend(mid, s, u) + DELIVERY_COST_TOKENS <= BUDGET_LIMIT_TOKENS;
        OthersDoNotCount(before, mid, kept, from, t, s, u);
      }
    }
  }

  /** The budget step and the gate step together are the routing of the call. */
  lemma TwoStepsAreRouting(
    o: Outcome, r: Request, live: seq<Session>, sl: Shortlist, gate: map<Session, bool>,
    kept: seq<Session>, over: seq<Session>, candidates: seq<Session>, over': seq<Session>,
    before: seq<Charge>, mid: seq<Charge>, after: seq<Charge>, from: Time, t: Time, to: Time)
    requires var short := Slice(sl.l0 + sl.l1, Limit(r));
      && Distinct(live) && from <= t <= to
      && kept == Except(short, over) && candidates == Candidates(r, live, sl, |kept|)
      && GateInv(r.high, before, mid, short, kept, over, from, t)
      && GateInv(r.high, mid, after, candidates, Admitted(candidates, gate, over'), over', t, to)
      && o == Outcome(kept + Admitted(candidates, gate, over'),
                      WithL2(Ungated(Gates(sl), over), Admitted(candidates, gate, over')), over + over')
    ensures IsRouting(o, r, live, sl, gate, before, after, from, to)
  {
    hide Except, Candidates, Slice, Willing, Charged, Checked, WithL2, OverBudget;
    var short := Slice(sl.l0 + sl.l1, Limit(r));
    SliceProperties(sl.l0 + sl.l1, Limit(r));
    ExceptProperties(short, over);
    CandidatesProperties(r, live, sl, |kept|);
    WillingProperties(candidates, gate);
    OverAsked(r.high, before, mid, short, kept, over, from, t);
    OverAsked(r.high, mid, after, candidates, Admitted(candidates, gate, over'), over', t, to);
    ExceptSame(short, over, over + over');
    ExceptSame(Willing(candidates, gate), over', over + over');
    assert Ungated(Gates(sl), over + over') == Ungated(Gates(sl), over);
    if !r.high {
      CheckedTwice(before, mid, short, kept, over, candidates, over', from, t, to);
      ChargedLater(before, mid, kept, from, from, t, to);
      ChargedLater(mid, after, Admitted(candidates, gate, over'), t, from, to, to);
      ChargedTwice(before, mid, after, kept, Admitted(candidates, gate, over'), from, to);
    }
  }

  lemma OverAsked(
    high: bool, before: seq<Charge>, log: seq<Charge>, asked: seq<Session>, charged: seq<Session>,
    over: seq<Session>, from: Time, now: Time)
    requires GateInv(high, before, log, asked, charged, over, from, now)
    ensures forall s :: s in over ==> s in asked
  {
  }

  method ShortlistGates(sl: Shortlist) returns (gates: map<Session, Layer>)
    ensures gates == Gates(sl)
  {
    gates := map[];
    for i := 0 to |sl.l0|
      invariant forall s :: s in gates <==> s in sl.l0[..i]
      invariant forall s :: s in gates ==> gates[s] == AdmittingLayer(sl, s)
    {
      gates := gates[sl.l0[i] := Delivery.L0];
    }
    for i := 0 to |sl.l1|
      invariant forall s :: s in gates <==> s in sl.l0 || s in sl.l1[..i]
      invariant forall s :: s in gates ==> gates[s] == AdmittingLayer(sl, s)
    {
      if sl.l1[i] !in gates {
        gates := gates[sl.l1[i] := Delivery.L1];
      }
    }
  }

  /**
   One help call of session `me`. `active` are the registered sessions; `experts`, `rows`, `matches` and `gate`
   are the answers of the attribution index, the learned-expertise table, the profiles and the Haiku gate.
   */
  method Help(
    me: Session, active: seq<Session>, r: Request, experts: seq<Expert>, rows: seq<LearnedRow>,
    matches: set<Session>, gate: map<Session, bool>, budgets: TokenBudgets)
    returns (o: Outcome, sl: Shortlist)
    requires Distinct(active)
    requires budgets.Valid() && Bounded(budgets.log)
    modifies budgets, budgets.clock
    ensures budgets.Valid() && Bounded(budgets.log)
    ensures IsShortlist(sl, Except(active, [me]), experts, rows, matches, Limit(r))
    ensures IsRouting(o, r, Except(active, [me]), sl, gate, old(budgets.log), budgets.log,
                      old(budgets.clock.time), budgets.clock.time)
    ensures Distinct(o.recipients) && me !in o.recipients && forall s :: s in o.recipients ==> s in active
    ensures |o.recipients| <= Limit(r) <==> Limit(r) >= 0
    ensures r.maxRecipients == None ==> |o.recipients| <= 5
    ensures Limit(r) >= 0 ==> TakesTheBest(sl.l0, Except(active, [me]), experts, rows, Limit(r))
    ensures CutAt(o, sl.l0 + sl.l1, if Limit(r) >= 0 then Limit(r) else |sl.l0 + sl.l1| + Limit(r))
    ensures forall s, t, t' :: t' == t + 3600000 ==> Spent(budgets.log, s, t, t') <= 25000
  {
    hide Bounded, HourSpend, BudgetInv, Except, Admitted, TakesTheBest, CutAt, WithL2, Faithful, Slice, Candidates,
      IsShortlist, Ungated, Distinct, IsRouting;
    var live := ExceptLoop(active, [me]);
    ExceptProperties(active, [me]);
    var limit := Limit(r);
    sl := BuildShortlist(live, experts, rows, matches, limit);
    ShortlistDistinct(sl, live, experts, rows, matches, limit);
    var short := Slice(sl.l0 + sl.l1, limit);
    SliceProperties(sl.l0 + sl.l1, limit);
    var gates := ShortlistGates(sl);
    var kept, kinds, over := short, gates, [];
    if r.high {
      NothingDropped(short, gates);
    } else {
      kept, kinds, over := ApplyBudget(budgets, short, gates);
    }
    ghost var mid, t := budgets.log, budgets.clock.time;
    var candidates := [];
    if !r.shortlistOnly && |kept| < limit {
      var others := ExceptLoop(live, sl.l0 + sl.l1);
      candidates := Slice(others, limit - |kept|);
    }
    CandidatesAre(r, live, sl, |kept|);
    CandidatesProperties(r, live, sl, |kept|);
    var recipients, gatedBy, over' := AskGate(budgets, r.high, candidates, gate, kept, kinds);
    o := Outcome(recipients, gatedBy, over + over');
    GateTime(r.high, mid, budgets.log, candidates, Admitted(candidates, gate, over'), over', t, budgets.clock.time);
    GateTime(r.high, old(budgets.log), mid, short, kept, over, old(budgets.clock.time), t);
    TwoStepsAreRouting(
      o, r, live, sl, gate, kept, over, candidates, over', old(budgets.log), mid, budgets.log,
      old(budgets.clock.time), t, budgets.clock.time);
    ShortlistProperties(sl, live, experts, rows, matches, limit);
    RoutingProperties(
      o, r, live, sl, gate, old(budgets.log), budgets.log, old(budgets.clock.time), budgets.clock.time);
    RecipientsAtMostLimit(
      o, r, live, sl, gate, old(budgets.log), budgets.log, old(budgets.clock.time), budgets.clock.time);
    CutIsExact(
      o, r, live, sl, gate, old(budgets.log), budgets.log, old(budgets.clock.time), budgets.clock.time);
    BoundInNumbers(budgets.log);
  }

  lemma GateTime(
    high: bool, before: seq<Charge>, log: seq<Charge>, asked: seq<Session>, charged: seq<Session>,
    over: seq<Session>, from: Time, now: Time)
    requires GateInv(high, before, log, asked, charged, over, from, now)
    ensures from <= now
  {
  }

  lemma CandidatesAre(r: Request, live: seq<Session>, sl: Shortlist, taken: nat)
    ensures Candidates(r, live, sl, taken) ==
            if !r.shortlistOnly && taken < Limit(r) then Slice(Except(live, sl.l0 + sl.l1), Limit(r) - taken) else []
  {
  }

  lemma ShortlistDistinct(
    sl: Shortlist, live: seq<Session>, experts: seq<Expert>, rows: seq<LearnedRow>, matches: set<Session>, limit: int)
    requires Distinct(live) && IsShortlist(sl, live, experts, rows, matches, limit)
    ensures Distinct(sl.l0 + sl.l1)
  {
    ShortlistProperties(sl, live, experts, rows, matches, limit);
  }

  lemma {:induction false} NothingDropped(short: seq<Session>, gates: map<Session, Layer>)
    ensures Except(short, []) == short && Ungated(gates, []) == gates
  {
    if short == [] {
    } else {
      NothingDropped(short[..|short| - 1], gates);
    }
  }

  /** The opening message gives every recipient, and nobody else, a pending row gated by its admitting layer. */
  lemma OpeningMessageRows(
    o: Outcome, r: Request, live: seq<Session>, sl: Shortlist, gate: map<Session, bool>,
    before: seq<Charge>, after: seq<Charge>, from: Time, to: Time, db: Delivery.Db, m: Delivery.Message)
    requires Distinct(live) && Distinct(sl.l0 + sl.l1) && (forall s :: s in sl.l0 + sl.l1 ==> s in live)
    requires IsRouting(o, r, live, sl, gate, before, after, from, to)
    requires o.recipients != [] && m.to == o.recipients[0]
    requires forall k :: k in db.deliveries ==> k.0 != m.id
    ensures var db' := Delivery.InsertMessage(db, m, None, (set s | s in o.recipients), o.gatedBy);
      forall s :: (if (m.id, s) in db'.deliveries then s in o.recipients
                     && db'.deliveries[(m.id, s)] == Delivery.DeliveryRow(None, Some(AdmittingLayer(sl, s)))
                   else s !in o.recipients)
  {
    hide IsRouting;
    RoutingProperties(o, r, live, sl, gate, before, after, from, to);
  }
}
