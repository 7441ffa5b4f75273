/** The rolling-hour token budget of help deliveries, kept in memory per session. */
module Budget {
  import opened Crosstalk

  const BUDGET_LIMIT_TOKENS: nat := 25000
  const DELIVERY_COST_TOKENS: nat := 5000
  const BUDGET_WINDOW_MS := 3600000

  /** One delivery charged to a session. */
  datatype Charge = Charge(session: Session, ts: Time, tokens: nat)

  datatype Entry = Entry(ts: Time, tokens: nat)

  /** The tokens charged to `s` after `lo` and up to `hi`, over the whole history. */
  function Spent(log: seq<Charge>, s: Session, lo: Time, hi: Time): nat {
    if log == [] then 0
    else
      var c := log[|log| - 1];
      Spent(log[..|log| - 1], s, lo, hi) + (if c.session == s && lo < c.ts <= hi then c.tokens else 0)
  }

  /** The tokens charged to `s` in the hour that ends at `t`. */
  function HourSpend(log: seq<Charge>, s: Session, t: Time): nat {
    Spent(log, s, t - BUDGET_WINDOW_MS, t)
  }

  /** No window of one hour holds more than the limit. */
  ghost predicate Bounded(log: seq<Charge>) {
    forall s: Session, t: Time :: HourSpend(log, s, t) <= BUDGET_LIMIT_TOKENS
  }

  /** At most 25000 tokens in any 60 minutes. */
  lemma BoundInNumbers(log: seq<Charge>)
    requires Bounded(log)
    ensures forall s, from, to :: to == from + 3600000 ==> Spent(log, s, from, to) <= 25000
  {
    hide Spent;
    forall s, from, to | to == from + 3600000 ensures Spent(log, s, from, to) <= 25000 {
      assert HourSpend(log, s, to) <= BUDGET_LIMIT_TOKENS;
    }
  }

  /** The entries of `s` charged after `cutoff`. */
  function Since(log: seq<Charge>, s: Session, cutoff: Time): seq<Entry> {
    if log == [] then []
    else
      var before, c := Since(log[..|log| - 1], s, cutoff), log[|log| - 1];
      if c.session == s && c.ts > cutoff then before + [Entry(c.ts, c.tokens)] else before
  }

  function Recent(entries: seq<Entry>, cutoff: Time): seq<Entry> {
    if entries == [] then []
    else
      var before, e := Recent(entries[..|entries| - 1], cutoff), entries[|entries| - 1];
      if e.ts > cutoff then before + [e] else before
  }

  function Sum(entries: seq<Entry>): nat {
    if entries == [] then 0 else Sum(entries[..|entries| - 1]) + entries[|entries| - 1].tokens
  }

  lemma RecentOfAppend(entries: seq<Entry>, e: Entry, cutoff: Time)
    ensures Recent(entries + [e], cutoff) ==
            if e.ts > cutoff then Recent(entries, cutoff) + [e] else Recent(entries, cutoff)
    ensures Sum(entries + [e]) == Sum(entries) + e.tokens
  {
    assert (entries + [e])[..|entries|] == entries;
  }

  /** Pruning twice is pruning once with the later cutoff. */
  lemma {:induction false} PrunedTwice(log: seq<Charge>, s: Session, cutoff: Time, later: Time)
    requires cutoff <= later
    ensures Recent(Since(log, s, cutoff), later) == Since(log, s, later)
  {
    if log == [] {
    } else {
      var init, c := log[..|log| - 1], log[|log| - 1];
      PrunedTwice(init, s, cutoff, later);
      if c.session == s && c.ts > cutoff {
        RecentOfAppend(Since(init, s, cutoff), Entry(c.ts, c.tokens), later);
      }
    }
  }

  /** The sum over the entries kept is the sum over the whole history. */
  lemma {:induction false} SumOfSince(log: seq<Charge>, s: Session, cutoff: Time, now: Time)
    requires forall c :: c in log ==> c.ts <= now
    ensures Sum(Since(log, s, cutoff)) == Spent(log, s, cutoff, now)
  {
    hide Recent;
    if log == [] {
    } else {
      var init, c := log[..|log| - 1], log[|log| - 1];
      assert c in log;
      SumOfSince(init, s, cutoff, now);
      if c.session == s && c.ts > cutoff {
        RecentOfAppend(Since(init, s, cutoff), Entry(c.ts, c.tokens), cutoff);
      }
    }
  }

  lemma {:induction false} SpentInNarrowerWindow(log: seq<Charge>, s: Session, lo: Time, lo': Time, hi: Time, hi': Time)
    requires lo <= lo'
    requires forall c :: c in log ==> c.ts <= hi
    ensures Spent(log, s, lo', hi') <= Spent(log, s, lo, hi)
  {
    if log == [] {
    } else {
      assert log[|log| - 1] in log;
      SpentInNarrowerWindow(log[..|log| - 1], s, lo, lo', hi, hi');
    }
  }

  lemma SpentOfAppend(log: seq<Charge>, c: Charge, s: Session, lo: Time, hi: Time)
    ensures Spent(log + [c], s, lo, hi) ==
            Spent(log, s, lo, hi) + (if c.session == s && lo < c.ts <= hi then c.tokens else 0)
  {
    assert (log + [c])[..|log|] == log;
  }

  lemma SinceOfAppend(log: seq<Charge>, c: Charge, s: Session, cutoff: Time)
    ensures Since(log + [c], s, cutoff) ==
            if c.session == s && c.ts > cutoff then Since(log, s, cutoff) + [Entry(c.ts, c.tokens)]
            else Since(log, s, cutoff)
  {
    assert (log + [c])[..|log|] == log;
  }

  /** A charge made no earlier than a check that found room keeps every window within the limit. */
  lemma ChargeKeepsBound(log: seq<Charge>, c: Charge, checked: Time)
    requires Bounded(log)
    requires forall d :: d in log ==> d.ts <= checked
    requires checked <= c.ts
    requires HourSpend(log, c.session, checked) + c.tokens <= BUDGET_LIMIT_TOKENS
    ensures Bounded(log + [c])
  {
    hide Spent;
    forall s: Session, t: Time ensures HourSpend(log + [c], s, t) <= BUDGET_LIMIT_TOKENS {
      assert HourSpend(log, s, t) <= BUDGET_LIMIT_TOKENS;
      SpentOfAppend(log, c, s, t - BUDGET_WINDOW_MS, t);
      if s == c.session && t >= c.ts {
        SpentInNarrowerWindow(log, s, checked - BUDGET_WINDOW_MS, t - BUDGET_WINDOW_MS, checked, t);
      }
    }
  }

  /** A charge keeps every window within the limit exactly when it fits the hour that ends with it. */
  lemma ChargeFitsExactly(log: seq<Charge>, c: Charge)
    requires Bounded(log) && forall d :: d in log ==> d.ts <= c.ts
    ensures Bounded(log + [c]) <==> HourSpend(log, c.session, c.ts) + c.tokens <= BUDGET_LIMIT_TOKENS
  {
    hide Spent;
    SpentOfAppend(log, c, c.session, c.ts - BUDGET_WINDOW_MS, c.ts);
    if HourSpend(log, c.session, c.ts) + c.tokens <= BUDGET_LIMIT_TOKENS {
      ChargeKeepsBound(log, c, c.ts);
    } else {
      assert HourSpend(log + [c], c.session, c.ts) > BUDGET_LIMIT_TOKENS;
    }
  }

  ghost predicate InOrder(log: seq<Charge>) {
    forall i, j :: 0 <= i < j < |log| ==> log[i].ts <= log[j].ts
  }

  /** Charge `i` fits the hour that ends with it. */
  predicate Fits(log: seq<Charge>, i: nat)
    requires i < |log|
  {
    HourSpend(log[..i], log[i].session, log[i].ts) + log[i].tokens <= BUDGET_LIMIT_TOKENS
  }

  /**
   Every history, however the calls that made it interleaved, stays within the limit in every window of one
   hour exactly when each charge fits the hour that ends with it.
   */
  lemma {:induction false} BoundedExactly(log: seq<Charge>)
    requires InOrder(log)
    ensures Bounded(log) <==> forall i :: 0 <= i < |log| ==> Fits(log, i)
  {
    hide HourSpend, Bounded;
    if log == [] {
      NothingIsBounded();
    } else {
      var n := |log| - 1;
      var init, c := log[..n], log[n];
      assert log == init + [c];
      BoundedExactly(init);
      forall i: nat | i < n ensures Fits(init, i) == Fits(log, i) {
        assert init[..i] == log[..i];
      }
      assert log[..n] == init;
      assert (forall i :: 0 <= i < |log| ==> Fits(log, i)) <==>
             (forall i :: 0 <= i < n ==> Fits(init, i)) && Fits(log, n);
      if Bounded(init) {
        ChargeFitsExactly(init, c);
      } else {
        MoreIsNotBounded(init, c);
      }
    }
  }

  lemma NothingIsBounded()
    ensures Bounded([])
  {
    forall s: Session, t: Time ensures HourSpend([], s, t) == 0 {
      NothingSpent(s, t);
    }
  }

  lemma NothingSpent(s: Session, t: Time)
    ensures HourSpend([], s, t) == 0
  {
  }

  /** A window that was exceeded stays exceeded. */
  lemma MoreIsNotBounded(log: seq<Charge>, c: Charge)
    requires !Bounded(log)
    ensures !Bounded(log + [c])
  {
    hide Spent;
    var s: Session, t: Time :| HourSpend(log, s, t) > BUDGET_LIMIT_TOKENS;
    SpentOfAppend(log, c, s, t - BUDGET_WINDOW_MS, t);
    assert HourSpend(log + [c], s, t) > BUDGET_LIMIT_TOKENS;
  }

  /** A charge together with the time at which its session was found to have room. */
  datatype Delivery = Delivery(charge: Charge, checked: Time)

  function Charges(ds: seq<Delivery>): (r: seq<Charge>)
    ensures |r| == |ds| && forall i :: 0 <= i < |ds| ==> r[i] == ds[i].charge
  {
    seq(|ds|, i requires 0 <= i < |ds| => ds[i].charge)
  }

  /** Every check sees all charges made before it, and the clock does not go backwards. */
  ghost predicate IsSerial(ds: seq<Delivery>) {
    && (forall i :: 0 <= i < |ds| ==> ds[i].checked <= ds[i].charge.ts)
    && (forall i, j :: 0 <= i < j < |ds| ==> ds[i].charge.ts <= ds[j].checked)
    && (forall i :: 0 <= i < |ds| ==>
          HourSpend(Charges(ds[..i]), ds[i].charge.session, ds[i].checked) + ds[i].charge.tokens
          <= BUDGET_LIMIT_TOKENS)
  }

  /** Over any serial run no session is charged more than the limit in any window of one hour. */
  lemma SerialRunIsBounded(ds: seq<Delivery>)
    requires IsSerial(ds)
    ensures Bounded(Charges(ds))
    ensures forall s, from, to :: to == from + 3600000 ==> Spent(Charges(ds), s, from, to) <= 25000
  {
    hide Spent;
    var log := Charges(ds);
    forall i: nat | i < |ds| ensures Fits(log, i) {
      var d := ds[i];
      assert log[..i] == Charges(ds[..i]);
      assert forall c :: c in log[..i] ==> c.ts <= d.checked;
      SpentInNarrowerWindow(
        log[..i], d.charge.session, d.checked - BUDGET_WINDOW_MS, d.charge.ts - BUDGET_WINDOW_MS, d.checked,
        d.charge.ts);
    }
    BoundedExactly(log);
    BoundInNumbers(log);
  }

  // ---- Calls that interleave ----

  /** The charges of help calls that all deliver to `s`, at the given times. */
  function Burst(s: Session, times: seq<Time>): (r: seq<Charge>)
    ensures |r| == |times|
    ensures forall i :: 0 <= i < |times| ==> r[i] == Charge(s, times[i], DELIVERY_COST_TOKENS)
  {
    seq(|times|, i requires 0 <= i < |times| => Charge(s, times[i], DELIVERY_COST_TOKENS))
  }

  /** Before every charge of a burst, the earlier ones count as long as they are less than an hour old. */
  lemma {:induction false} SpentInBurst(log: seq<Charge>, s: Session, times: seq<Time>, t: Time)
    requires forall i :: 0 <= i < |times| ==> t - BUDGET_WINDOW_MS < times[i] <= t
    ensures HourSpend(log + Burst(s, times), s, t) == HourSpend(log, s, t) + |times| * DELIVERY_COST_TOKENS
  {
    hide Spent;
    if times == [] {
      assert log + Burst(s, times) == log;
    } else {
      var init, last := times[..|times| - 1], times[|times| - 1];
      SpentInBurst(log, s, init, t);
      assert log + Burst(s, times) == log + Burst(s, init) + [Charge(s, last, DELIVERY_COST_TOKENS)];
      SpentOfAppend(
        log + Burst(s, init), Charge(s, last, DELIVERY_COST_TOKENS), s, t - BUDGET_WINDOW_MS, t);
    }
  }

  /**
   Help calls that all check before any of them charges, with charges less than an hour apart: the limit is kept
   exactly when for every charge the spend before the burst and the burst so far fit together.
   */
  lemma BurstFitsExactly(log: seq<Charge>, s: Session, times: seq<Time>)
    requires Bounded(log) && InOrder(log)
    requires forall i, j :: 0 <= i <= j < |times| ==> times[i] <= times[j] < times[i] + BUDGET_WINDOW_MS
    requires forall d, i :: d in log && 0 <= i < |times| ==> d.ts <= times[i]
    ensures Bounded(log + Burst(s, times)) <==>
            forall i :: 0 <= i < |times| ==>
              HourSpend(log, s, times[i]) + (i + 1) * DELIVERY_COST_TOKENS <= BUDGET_LIMIT_TOKENS
  {
    hide HourSpend, Bounded;
    var all := log + Burst(s, times);
    BoundedExactly(log);
    BoundedExactly(all);
    forall i: nat | i < |log| ensures Fits(all, i) == Fits(log, i) {
      assert all[..i] == log[..i];
    }
    forall i: nat | i < |times|
      ensures Fits(all, |log| + i) <==>
              HourSpend(log, s, times[i]) + (i + 1) * DELIVERY_COST_TOKENS <= BUDGET_LIMIT_TOKENS
    {
      assert all[..|log| + i] == log + Burst(s, times[..i]);
      SpentInBurst(log, s, times[..i], times[i]);
    }
    if forall i :: 0 <= i < |times| ==>
         HourSpend(log, s, times[i]) + (i + 1) * DELIVERY_COST_TOKENS <= BUDGET_LIMIT_TOKENS {
      forall k: nat | k < |all| ensures Fits(all, k) {
        if k >= |log| {
          assert Fits(all, |log| + (k - |log|));
        }
      }
    }
  }

  /**
   `calls` help calls that check and charge a session at one instant, each check before every charge: every
   check finds room as soon as one delivery fits, yet the limit is exceeded exactly when the spend so far and
   all the deliveries together exceed it.
   */
  lemma InterleavedCallsOverspend(log: seq<Charge>, s: Session, t: Time, calls: nat)
    requires Bounded(log) && InOrder(log) && forall d :: d in log ==> d.ts <= t
    ensures !Bounded(log + Burst(s, seq(calls, _ => t))) <==>
            HourSpend(log, s, t) + calls * DELIVERY_COST_TOKENS > BUDGET_LIMIT_TOKENS
  {
    hide HourSpend;
    var times := seq(calls, _ => t);
    BurstFitsExactly(log, s, times);
    if calls == 0 {
      assert log + Burst(s, times) == log;
    } else {
      assert times[calls - 1] == t;
    }
  }

  /** A clock that may stand still but never goes backwards. */
  class Clock {
    var time: Time

    method Now() returns (t: Time)
      modifies this
      ensures t == time && old(time) <= time
    {
      var passed: int := *;
      if passed > 0 {
        time := time + passed;
      }
      t := time;
    }
  }

  method Prune(kept: seq<Entry>, cutoff: Time) returns (entries: seq<Entry>, total: nat)
    ensures entries == Recent(kept, cutoff) && total == Sum(entries)
    ensures kept == [] ==> entries == []
  {
    entries, total := [], 0;
    for i := 0 to |kept|
      invariant entries == Recent(kept[..i], cutoff) && total == Sum(entries)
    {
      assert kept[..i + 1] == kept[..i] + [kept[i]];
      RecentOfAppend(kept[..i], kept[i], cutoff);
      if kept[i].ts > cutoff {
        RecentOfAppend(entries, kept[i], cutoff);
        entries, total := entries + [kept[i]], total + kept[i].tokens;
      }
    }
    assert kept[..|kept|] == kept;
  }

  /** The entries kept for a session are exactly its charges after a cutoff that no coming window reaches. */
  ghost predicate Faithful(
    log: seq<Charge>, budgets: map<Session, seq<Entry>>, cutoffs: map<Session, Time>, latest: Time)
  {
    && (forall c :: c in log ==> c.ts <= latest && c.session in budgets)
    && budgets.Keys == cutoffs.Keys
    && (forall s :: s in budgets ==>
          cutoffs[s] <= latest - BUDGET_WINDOW_MS && budgets[s] == Since(log, s, cutoffs[s]))
  }

  lemma FaithfulLater(
    log: seq<Charge>, budgets: map<Session, seq<Entry>>, cutoffs: map<Session, Time>, latest: Time, later: Time)
    requires Faithful(log, budgets, cutoffs, latest) && latest <= later
    ensures Faithful(log, budgets, cutoffs, later)
  {
    hide Since;
  }

  lemma PruneIsFaithful(
    log: seq<Charge>, budgets: map<Session, seq<Entry>>, cutoffs: map<Session, Time>, now: Time, s: Session,
    kept: seq<Entry>)
    requires Faithful(log, budgets, cutoffs, now)
    requires kept == if s in budgets then Recent(budgets[s], now - BUDGET_WINDOW_MS) else []
    ensures Faithful(log, budgets[s := kept], cutoffs[s := now - BUDGET_WINDOW_MS], now)
    ensures Sum(kept) == HourSpend(log, s, now)
  {
    hide Recent, Since, Sum, Spent;
    if s in budgets {
      PrunedTwice(log, s, cutoffs[s], now - BUDGET_WINDOW_MS);
    } else {
      NothingSince(log, s, now - BUDGET_WINDOW_MS);
    }
    SumOfSince(log, s, now - BUDGET_WINDOW_MS, now);
  }

  lemma ChargeIsFaithful(
    log: seq<Charge>, budgets: map<Session, seq<Entry>>, cutoffs: map<Session, Time>, now: Time, s: Session,
    tokens: nat)
    requires Faithful(log, budgets, cutoffs, now)
    ensures var kept := if s in budgets then budgets[s] else [];
            var cutoff := if s in cutoffs then cutoffs[s] else now - BUDGET_WINDOW_MS;
            Faithful(
              log + [Charge(s, now, tokens)], budgets[s := kept + [Entry(now, tokens)]], cutoffs[s := cutoff], now)
  {
    hide Since;
    if s !in budgets {
      NothingSince(log, s, now - BUDGET_WINDOW_MS);
      SinceOfAppend(log, Charge(s, now, tokens), s, now - BUDGET_WINDOW_MS);
    }
    forall r | r in budgets
      ensures Since(log + [Charge(s, now, tokens)], r, cutoffs[r]) ==
              if r == s then budgets[r] + [Entry(now, tokens)] else budgets[r]
    {
      SinceOfAppend(log, Charge(s, now, tokens), r, cutoffs[r]);
    }
  }

  class TokenBudgets {
    const clock: Clock
    var budgets: map<Session, seq<Entry>>
    /** Every charge ever made, in order. */
    ghost var log: seq<Charge>
    /** For each session, the cutoff its entries were last pruned with. */
    ghost var cutoffs: map<Session, Time>

    ghost predicate Valid()
      reads this, clock
    {
      Faithful(log, budgets, cutoffs, clock.time)
    }

    constructor (clock: Clock)
      ensures this.clock == clock && Valid() && log == []
    {
      this.clock, budgets, log, cutoffs := clock, map[], [], map[];
    }

    /** Prunes the session's entries; the answer is nevertheless the spend over the whole history. */
    method GetBudgetSpend(session: Session) returns (spend: nat, ghost now: Time)
      requires Valid()
      modifies this, clock
      ensures Valid() && log == old(log)
      ensures old(clock.time) <= now == clock.time
      ensures spend == HourSpend(log, session, now)
    {
      hide Recent, Sum, Spent, Faithful;
      var t := clock.Now();
      now := t;
      FaithfulLater(log, budgets, cutoffs, old(clock.time), t);
      var kept := if session in budgets then budgets[session] else [];
      var entries;
      entries, spend := Prune(kept, t - BUDGET_WINDOW_MS);
      PruneIsFaithful(log, budgets, cutoffs, t, session, entries);
      budgets := budgets[session := entries];
      cutoffs := cutoffs[session := t - BUDGET_WINDOW_MS];
    }

    method HasBudget(session: Session, tokens: nat) returns (ok: bool, ghost now: Time)
      requires Valid()
      modifies this, clock
      ensures Valid() && log == old(log)
      ensures old(clock.time) <= now == clock.time
      ensures ok <==> HourSpend(log, session, now) + tokens <= BUDGET_LIMIT_TOKENS
    {
      var spend;
      spend, now := GetBudgetSpend(session);
      ok := spend + tokens <= BUDGET_LIMIT_TOKENS;
    }

    method ConsumeBudget(session: Session, tokens: nat)
      requires Valid()
      modifies this, clock
      ensures Valid() && old(clock.time) <= clock.time
      ensures log == old(log) + [Charge(session, clock.time, tokens)]
    {
      hide Faithful;
      var t := clock.Now();
      FaithfulLater(log, budgets, cutoffs, old(clock.time), t);
      ChargeIsFaithful(log, budgets, cutoffs, t, session, tokens);
      var entries := if session in budgets then budgets[session] else [];
      budgets := budgets[session := entries + [Entry(t, tokens)]];
      cutoffs := cutoffs[session := if session in cutoffs then cutoffs[session] else t - BUDGET_WINDOW_MS];
      log := log + [Charge(session, t, tokens)];
    }
  }

  lemma {:induction false} NothingSince(log: seq<Charge>, s: Session, cutoff: Time)
    requires forall c :: c in log ==> c.session != s
    ensures Since(log, s, cutoff) == []
  {
    if log == [] {
    } else {
      assert log[|log| - 1] in log;
      NothingSince(log[..|log| - 1], s, cutoff);
    }
  }
}
