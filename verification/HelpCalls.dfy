/**
 Help calls that run concurrently in one server. A shortlisted session is checked and charged in one step; one
 that goes through the gate is checked, waits for the answer of the gate, and is charged afterwards, while other
 calls go on.
 */
module HelpCalls {
  import opened Crosstalk
  import opened Budget

  /** `waiting` has a session once for each call that found room for it and waits for the gate. */
  datatype State = State(log: seq<Charge>, now: Time, waiting: multiset<Session>)

  datatype Event =
    | Tick(ms: nat)
    | Deliver(s: Session)
    | Ask(s: Session)
    | Admit(s: Session)
    | Decline(s: Session)

  predicate HasRoom(st: State, s: Session) {
    HourSpend(st.log, s, st.now) + DELIVERY_COST_TOKENS <= BUDGET_LIMIT_TOKENS
  }

  predicate Enabled(st: State, e: Event) {
    match e
    case Tick(_) => true
    case Deliver(s) => HasRoom(st, s)
    case Ask(s) => HasRoom(st, s)
    case Admit(s) => s in st.waiting
    case Decline(s) => s in st.waiting
  }

  function Charged(st: State, s: Session): State {
    st.(log := st.log + [Charge(s, st.now, DELIVERY_COST_TOKENS)])
  }

  function Next(st: State, e: Event): State {
    match e
    case Tick(ms) => st.(now := st.now + ms)
    case Deliver(s) => Charged(st, s)
    case Ask(s) => st.(waiting := st.waiting + multiset{s})
    case Admit(s) => Charged(st.(waiting := st.waiting - multiset{s}), s)
    case Decline(s) => st.(waiting := st.waiting - multiset{s})
  }

  function After(start: Time, es: seq<Event>): State {
    if es == [] then State([], start, multiset{})
    else Next(After(start, es[..|es| - 1]), es[|es| - 1])
  }

  /** A run in which at most `k` calls are dealing with any one session at a time. */
  predicate IsRun(start: Time, es: seq<Event>, k: nat) {
    es == [] ||
    var init, e := es[..|es| - 1], es[|es| - 1];
    && IsRun(start, init, k)
    && Enabled(After(start, init), e)
    && (e.Deliver? || e.Ask? ==> After(start, init).waiting[e.s] < k)
  }

  /** The limit, and one delivery more for every call beyond the first. */
  function Most(k: nat): int {
    BUDGET_LIMIT_TOKENS + (k - 1) * DELIVERY_COST_TOKENS
  }

  /** Deliveries that are still to come count as if they were charged. */
  ghost predicate Inv(st: State, k: nat) {
    && (forall c :: c in st.log ==> c.ts <= st.now)
    && (forall s: Session, t: Time :: HourSpend(st.log, s, t) <= Most(k))
    && (forall s: Session :: HourSpend(st.log, s, st.now) + st.waiting[s] * DELIVERY_COST_TOKENS <= Most(k))
  }

  lemma SpendFades(log: seq<Charge>, s: Session, now: Time, t: Time)
    requires forall c :: c in log ==> c.ts <= now
    requires now <= t
    ensures HourSpend(log, s, t) <= HourSpend(log, s, now)
  {
    hide Spent;
    SpentInNarrowerWindow(log, s, now - BUDGET_WINDOW_MS, t - BUDGET_WINDOW_MS, now, t);
  }

  /** One delivery more in every window that holds the present. */
  lemma SpendOfCharged(st: State, s: Session, s': Session, t: Time)
    ensures HourSpend(Charged(st, s).log, s', t) ==
            HourSpend(st.log, s', t) +
            (if s' == s && t - BUDGET_WINDOW_MS < st.now <= t then DELIVERY_COST_TOKENS else 0)
  {
    hide Spent;
    SpentOfAppend(st.log, Charge(s, st.now, DELIVERY_COST_TOKENS), s', t - BUDGET_WINDOW_MS, t);
  }

  lemma ChargedKeepsInv(st: State, s: Session, k: nat)
    requires Inv(st, k)
    requires HourSpend(st.log, s, st.now) + (st.waiting[s] + 1) * DELIVERY_COST_TOKENS <= Most(k)
    ensures Inv(Charged(st, s), k)
  {
    hide HourSpend;
    var st' := Charged(st, s);
    forall s': Session, t: Time ensures HourSpend(st'.log, s', t) <= Most(k) {
      SpendOfCharged(st, s, s', t);
      if s' == s && st.now <= t {
        SpendFades(st.log, s, st.now, t);
      }
    }
    forall s': Session
      ensures HourSpend(st'.log, s', st'.now) + st'.waiting[s'] * DELIVERY_COST_TOKENS <= Most(k)
    {
      SpendOfCharged(st, s, s', st.now);
    }
  }

  lemma StepKeepsInv(st: State, e: Event, k: nat)
    requires Inv(st, k) && Enabled(st, e)
    requires e.Deliver? || e.Ask? ==> st.waiting[e.s] < k
    ensures Inv(Next(st, e), k)
  {
    hide HourSpend;
    match e {
      case Tick(ms) =>
        forall s: Session
          ensures HourSpend(st.log, s, st.now + ms) + st.waiting[s] * DELIVERY_COST_TOKENS <= Most(k)
        {
          SpendFades(st.log, s, st.now, st.now + ms);
        }
      case Deliver(s) =>
        ChargedKeepsInv(st, s, k);
      case Ask(s) =>
      case Admit(s) =>
        ChargedKeepsInv(st.(waiting := st.waiting - multiset{s}), s, k);
      case Decline(s) =>
    }
  }

  lemma {:induction false} RunKeepsInv(start: Time, es: seq<Event>, k: nat)
    requires IsRun(start, es, k) && k > 0
    ensures Inv(After(start, es), k)
  {
    if es != [] {
      var init := es[..|es| - 1];
      RunKeepsInv(start, init, k);
      StepKeepsInv(After(start, init), es[|es| - 1], k);
    }
  }

  // ---- What time and the gate do ----

  /** An hour after the last charge every session has room again, from any point of any run. */
  lemma RoomAfterAnHour(start: Time, es: seq<Event>, k: nat, s: Session)
    requires IsRun(start, es, k) && k > 0
    ensures var later := es + [Tick(3600000)];
      IsRun(start, later, k) && HourSpend(After(start, later).log, s, After(start, later).now) == 0
      && HasRoom(After(start, later), s)
  {
    RunOfAppend(start, es, Tick(3600000), k);
    RunKeepsInv(start, es, k);
    var st := After(start, es);
    NothingSince(st.log, s, st.now);
  }

  lemma {:induction false} NothingSince(log: seq<Charge>, s: Session, lo: Time)
    requires forall c :: c in log ==> c.ts <= lo
    ensures Spent(log, s, lo, lo + 3600000) == 0
  {
    if log == [] {
    } else {
      assert log[|log| - 1] in log;
      NothingSince(log[..|log| - 1], s, lo);
    }
  }

  /** Either answer of the gate ends the wait of one call; only an admission charges, 5000 tokens at that moment. */
  lemma GateAnswers(st: State, s: Session)
    requires s in st.waiting
    ensures Enabled(st, Admit(s)) && Enabled(st, Decline(s))
    ensures var no := Next(st, Decline(s)); no.log == st.log && no.now == st.now
    ensures var yes := Next(st, Admit(s)); yes.log == st.log + [Charge(s, st.now, 5000)] && yes.now == st.now
    ensures forall e, r :: e == Admit(s) || e == Decline(s) ==>
              Next(st, e).waiting[r] == st.waiting[r] - (if r == s then 1 else 0)
  {
  }

  // ---- The bound is reached ----

  lemma RunOfAppend(start: Time, es: seq<Event>, e: Event, k: nat)
    ensures After(start, es + [e]) == Next(After(start, es), e)
    ensures IsRun(start, es + [e], k) <==>
            && IsRun(start, es, k) && Enabled(After(start, es), e)
            && (e.Deliver? || e.Ask? ==> After(start, es).waiting[e.s] < k)
  {
    assert (es + [e])[..|es|] == es;
  }

  /** Deliveries one by one, as many as fit. */
  lemma {:induction false} Delivered(start: Time, s: Session, n: nat, k: nat) returns (es: seq<Event>)
    requires n * DELIVERY_COST_TOKENS <= BUDGET_LIMIT_TOKENS && k > 0
    ensures IsRun(start, es, k)
    ensures var st := After(start, es);
      st.now == start && st.waiting[s] == 0 && HourSpend(st.log, s, start) == n * DELIVERY_COST_TOKENS
  {
    if n == 0 {
      es := [];
    } else {
      var init := Delivered(start, s, n - 1, k);
      es := init + [Deliver(s)];
      RunOfAppend(start, init, Deliver(s), k);
      SpendOfCharged(After(start, init), s, s, start);
    }
  }

  /** Calls that all check before any of them charges, however many. */
  lemma {:induction false} Asked(start: Time, before: seq<Event>, s: Session, n: nat, k: nat) returns (es: seq<Event>)
    requires IsRun(start, before, k) && HasRoom(After(start, before), s)
    requires After(start, before).waiting[s] + n <= k
    ensures IsRun(start, es, k)
    ensures var st := After(start, before);
      After(start, es) == st.(waiting := st.waiting[s := st.waiting[s] + n])
  {
    if n == 0 {
      es := before;
    } else {
      var init := Asked(start, before, s, n - 1, k);
      es := init + [Ask(s)];
      RunOfAppend(start, init, Ask(s), k);
    }
  }

  /** Gates that answer one by one, so that each delivery is charged. */
  lemma {:induction false} Admitted(start: Time, before: seq<Event>, s: Session, n: nat, k: nat)
    returns (es: seq<Event>)
    requires IsRun(start, before, k) && n <= After(start, before).waiting[s]
    ensures IsRun(start, es, k)
    ensures var st, st' := After(start, before), After(start, es);
      && st'.now == st.now && st'.waiting[s] == st.waiting[s] - n
      && HourSpend(st'.log, s, st.now) == HourSpend(st.log, s, st.now) + n * DELIVERY_COST_TOKENS
  {
    if n == 0 {
      es := before;
    } else {
      var init := Admitted(start, before, s, n - 1, k);
      es := init + [Admit(s)];
      RunOfAppend(start, init, Admit(s), k);
      SpendOfCharged(After(start, init), s, s, After(start, before).now);
    }
  }

  /**
   From any point of any run: however many more calls check a session while one delivery still fits, all of
   them find room, and once their gates have admitted they have all charged.
   */
  lemma InterleavedCalls(start: Time, before: seq<Event>, s: Session, n: nat, k: nat) returns (es: seq<Event>)
    requires IsRun(start, before, k) && HasRoom(After(start, before), s)
    requires After(start, before).waiting[s] + n <= k
    ensures IsRun(start, es, k)
    ensures var st, st' := After(start, before), After(start, es);
      && st'.now == st.now && st'.waiting[s] == st.waiting[s]
      && HourSpend(st'.log, s, st.now) == HourSpend(st.log, s, st.now) + n * DELIVERY_COST_TOKENS
  {
    hide HourSpend;
    es := Asked(start, before, s, n, k);
    es := Admitted(start, es, s, n, k);
  }

  /** What any run with at most `k` concurrent calls for a session charges to it in an hour. */
  ghost predicate IsSpend(tokens: int, k: nat) {
    exists start, es, s, t :: IsRun(start, es, k) && HourSpend(After(start, es).log, s, t) == tokens
  }

  /** The most that runs with `k` concurrent calls spend is the limit and `k - 1` deliveries more, exactly. */
  lemma MostIsSpent(k: nat)
    requires k > 0
    ensures IsSpend(Most(k), k)
    ensures forall tokens :: IsSpend(tokens, k) ==> tokens <= Most(k)
  {
    hide HourSpend;
    forall tokens | IsSpend(tokens, k) ensures tokens <= Most(k) {
      var start, es, s, t :| IsRun(start, es, k) && HourSpend(After(start, es).log, s, t) == tokens;
      RunKeepsInv(start, es, k);
    }
    var s: Session := "a";
    var es := Delivered(0, s, 4, k);
    es := InterleavedCalls(0, es, s, k, k);
    assert HourSpend(After(0, es).log, s, 0) == Most(k);
  }

  ghost predicate KeepsLimit(start: Time, es: seq<Event>) {
    Bounded(After(start, es).log)
  }

  /** Every run stays within the limit exactly when no two calls deal with one session at a time. */
  lemma LimitIsKeptExactly(k: nat)
    ensures k <= 1 <==> forall start, es :: IsRun(start, es, k) ==> KeepsLimit(start, es)
  {
    hide HourSpend;
    if k <= 1 {
      forall start, es | IsRun(start, es, k) ensures KeepsLimit(start, es) {
        MoreCalls(start, es, k, 1);
        RunKeepsInv(start, es, 1);
      }
    } else {
      MostIsSpent(k);
      var start, es, s, t :| IsRun(start, es, k) && HourSpend(After(start, es).log, s, t) == Most(k);
      assert HourSpend(After(start, es).log, s, t) > BUDGET_LIMIT_TOKENS;
      assert IsRun(start, es, k) && !KeepsLimit(start, es);
    }
  }

  lemma {:induction false} MoreCalls(start: Time, es: seq<Event>, k: nat, k': nat)
    requires IsRun(start, es, k) && k <= k'
    ensures IsRun(start, es, k')
  {
    if es != [] {
      MoreCalls(start, es[..|es| - 1], k, k');
    }
  }
}
