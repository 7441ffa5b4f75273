/**
 Which feedback a stored unit carries. Confirm and Flag read the unit in one step and write it in another, so
 feedback can be lost to another writer and to a drain in between.
 */
module FeedbackHistory {
  import opened Units
  import opened Store
  import opened DrainProtocol
  import opened FreshIds
  import opened Scoring

  /**
   `born` is every unit as it was first stored and `given` the feedback of every task. `held` lists the tasks whose
   feedback a stored unit carries, in the order of writing, and `read` what a task found there.
   */
  datatype History = History(
    born: map<UnitId, Unit>,
    given: map<nat, Feedback>,
    held: map<UnitId, seq<nat>>,
    read: map<nat, seq<nat>>)

  predicate Inserts(s: State, e: Event, id: UnitId)
    requires Enabled(s, e)
  {
    e.Insert? && !e.fails && s.tasks[e.t].u.id == id && Insertable(s.local, s.tasks[e.t].u)
  }

  predicate Reads(s: State, e: Event, id: UnitId)
    requires Enabled(s, e)
  {
    e.Get? && !e.fails && s.tasks[e.t].id == id && id in s.local
  }

  predicate Updates(s: State, e: Event, id: UnitId)
    requires Enabled(s, e)
  {
    e.Update? && !e.fails && s.tasks[e.t].u.id == id && Updatable(s.local, s.tasks[e.t].u)
  }

  predicate Forgets(s: State, e: Event, id: UnitId)
    requires Enabled(s, e)
  {
    e.Delete? && !e.fails && s.tasks[e.t].units[s.tasks[e.t].next].id == id
  }

  function Held(h: History, id: UnitId): seq<nat> {
    if id in h.held then h.held[id] else []
  }

  function Read(h: History, t: nat): seq<nat> {
    if t in h.read then h.read[t] else []
  }

  function Start(s: State): History {
    History(s.local, map[], map id | id in s.local :: [], map[])
  }

  function Recorded(h: History, s: State, e: Event): History
    requires Enabled(s, e)
  {
    match e
    case StartFeedback(t, _, feedback) => h.(given := h.given[t := feedback])
    case Insert(t, _) =>
      var u := s.tasks[t].u;
      if Inserts(s, e, u.id) then h.(born := h.born[u.id := Stored(u)], held := h.held[u.id := []]) else h
    case Get(t, _) =>
      var id := s.tasks[t].id;
      if Reads(s, e, id) then h.(read := h.read[t := Held(h, id)]) else h
    case Update(t, _) =>
      var id := s.tasks[t].u.id;
      if Updates(s, e, id) then h.(held := h.held[id := Read(h, t) + [t]]) else h
    case Delete(t, fails) =>
      if fails then h else h.(held := h.held - {s.tasks[t].units[s.tasks[t].next].id})
    case _ => h
  }

  ghost function HistoryAt(ss: seq<State>, es: seq<Event>, n: nat): History
    requires IsRun(ss, es) && n < |ss|
  {
    if n == 0 then Start(ss[0]) else Recorded(HistoryAt(ss, es, n - 1), ss[n - 1], es[n - 1])
  }

  function FeedbackOf(h: History, t: nat): Feedback {
    if t in h.given then h.given[t] else Confirmation(0)
  }

  /** The feedback of these tasks. */
  function Given(h: History, ts: seq<nat>): seq<Feedback> {
    seq(|ts|, i requires 0 <= i < |ts| => FeedbackOf(h, ts[i]))
  }

  // ---- A stored unit is what was first stored, with the feedback held applied ----

  ghost predicate Carries(h: History, u: Unit, ts: seq<nat>) {
    && u.id in h.born && u == ApplyAll(h.born[u.id], Given(h, ts))
    && IsNormalized(u.domains) && u.domains != []
  }

  ghost predicate AllDone(s: State, ts: seq<nat>) {
    forall t :: t in ts ==> t in s.tasks && s.tasks[t].Finished?
  }

  ghost predicate UnitsCarry(h: History, s: State) {
    && h.held.Keys == s.local.Keys
    && (forall id :: id in s.local ==>
          s.local[id].id == id && Carries(h, s.local[id], h.held[id]) && AllDone(s, h.held[id]))
  }

  ghost predicate TaskCarries(h: History, s: State, t: nat, task: Task) {
    match task
    case Reading(_, feedback) => FeedbackOf(h, t) == feedback
    case Updating(u) => Settled(s, u.id) && Carries(h, u, Read(h, t) + [t]) && AllDone(s, Read(h, t))
    case _ => true
  }

  ghost predicate Traced(h: History, s: State) {
    && UnitsCarry(h, s)
    && (forall t :: t in s.tasks ==> TaskCarries(h, s, t, s.tasks[t]))
  }

  lemma {:induction false} ApplyAllOfAppend(u: Unit, fs: seq<Feedback>, f: Feedback)
    ensures ApplyAll(u, fs + [f]) == ApplyFeedback(ApplyAll(u, fs), f)
    decreases fs
  {
    hide ApplyFeedback;
    if fs == [] {
      assert ([] + [f])[1..] == [];
    } else {
      ApplyAllOfAppend(ApplyFeedback(u, fs[0]), fs[1..], f);
      assert (fs + [f])[1..] == fs[1..] + [f];
    }
  }

  /** Feedback given later does not change what a unit carries. */
  lemma CarriesStays(h: History, h': History, u: Unit, ts: seq<nat>)
    requires Carries(h, u, ts) && u.id in h'.born && h'.born[u.id] == h.born[u.id]
    requires forall t :: t in ts ==> FeedbackOf(h', t) == FeedbackOf(h, t)
    ensures Carries(h', u, ts)
  {
    hide ApplyAll, IsNormalized, FeedbackOf;
    assert Given(h', ts) == Given(h, ts);
  }

  /** Applying the feedback of one more task. */
  lemma CarriesOneMore(h: History, u: Unit, ts: seq<nat>, t: nat)
    requires Carries(h, u, ts)
    ensures Carries(h, ApplyFeedback(u, FeedbackOf(h, t)), ts + [t])
  {
    hide FeedbackOf, IsNormalized;
    ApplyAllOfAppend(h.born[u.id], Given(h, ts), FeedbackOf(h, t));
    assert Given(h, ts + [t]) == Given(h, ts) + [FeedbackOf(h, t)];
  }

  lemma CarriesIsStored(h: History, u: Unit, ts: seq<nat>)
    requires Carries(h, u, ts)
    ensures Stored(u) == u && Normalized(u.domains) != []
  {
    NormalizedFixed(u.domains);
  }

  // ---- Every step keeps the record true ----

  lemma StepGrows(h: History, s: State, e: Event)
    requires Enabled(s, e)
    ensures var h', s' := Recorded(h, s, e), Next(s, e);
      && (forall id :: Settled(s, id) && id in h.born ==> id in h'.born && h'.born[id] == h.born[id])
      && (forall t :: t in s.tasks ==> FeedbackOf(h', t) == FeedbackOf(h, t))
      && (forall t :: t in s.tasks && s.tasks[t].Finished? ==> t in s'.tasks && s'.tasks[t].Finished?)
      && (forall t :: t != e.t ==> Read(h', t) == Read(h, t))
  {
    hide Next, ListingOf, Stored, Updatable, Insertable;
    OneTaskMoves(s, e);
  }

  lemma TaskStays(h: History, s: State, e: Event, t: nat)
    requires Enabled(s, e) && t in s.tasks && t != e.t && TaskCarries(h, s, t, s.tasks[t])
    ensures t in Next(s, e).tasks && TaskCarries(Recorded(h, s, e), Next(s, e), t, Next(s, e).tasks[t])
  {
    hide Next, Recorded, Carries, Read, FeedbackOf, Enabled, Settled;
    OneTaskMoves(s, e);
    StepGrows(h, s, e);
    if s.tasks[t].Updating? {
      var u := s.tasks[t].u;
      SettledStays(s, e, u.id);
      BornIsKnown(h, u, Read(h, t) + [t]);
      CarriesStays(h, Recorded(h, s, e), u, Read(h, t) + [t]);
    }
  }

  lemma BornIsKnown(h: History, u: Unit, ts: seq<nat>)
    requires Carries(h, u, ts)
    ensures u.id in h.born
  {
  }

  /** A unit that is neither inserted nor updated nor deleted stays, and holds what it held. */
  lemma UnitStays(h: History, s: State, e: Event, id: UnitId)
    requires Enabled(s, e) && !Inserts(s, e, id) && !Updates(s, e, id) && !Forgets(s, e, id)
    ensures id in Next(s, e).local <==> id in s.local
    ensures id in s.local ==> Next(s, e).local[id] == s.local[id]
    ensures id in Recorded(h, s, e).held <==> id in h.held
    ensures Held(Recorded(h, s, e), id) == Held(h, id)
  {
    hide ListingOf, Stored, Updatable, Insertable, ContentOf, ApplyFeedback;
  }

  lemma GoneIsForgotten(h: History, s: State, e: Event, id: UnitId)
    requires Enabled(s, e) && Forgets(s, e, id)
    ensures id !in Next(s, e).local && id !in Recorded(h, s, e).held
  {
  }

  lemma InsertedCarries(h: History, s: State, e: Event, id: UnitId)
    requires Enabled(s, e) && Inserts(s, e, id)
    ensures var h', s' := Recorded(h, s, e), Next(s, e);
      && id in s'.local && s'.local[id].id == id && id in h'.held && h'.held[id] == []
      && Carries(h', s'.local[id], [])
  {
    hide IsNormalized, Normalized;
    var u := s.tasks[e.t].u;
    ContentKept(u, Confirmation(0));
    NormalizedProperties(u.domains);
  }

  lemma UpdatedCarries(h: History, s: State, e: Event, id: UnitId)
    requires Traced(h, s) && Enabled(s, e) && Updates(s, e, id)
    ensures var h', s' := Recorded(h, s, e), Next(s, e);
      && id in s'.local && s'.local[id] == s.tasks[e.t].u && s'.local[id].id == id
      && id in h'.held && h'.held[id] == Read(h, e.t) + [e.t]
      && Carries(h', s'.local[id], h'.held[id]) && AllDone(s', h'.held[id])
  {
    hide Carries, Stored, Normalized, IsNormalized, UnitsCarry, Settled;
    var u := s.tasks[e.t].u;
    assert TaskCarries(h, s, e.t, s.tasks[e.t]);
    CarriesIsStored(h, u, Read(h, e.t) + [e.t]);
    BornIsKnown(h, u, Read(h, e.t) + [e.t]);
    CarriesStays(h, Recorded(h, s, e), u, Read(h, e.t) + [e.t]);
  }

  lemma StepKeepsUnit(h: History, s: State, e: Event, id: UnitId)
    requires Traced(h, s) && Fresh(s) && Enabled(s, e)
    ensures var h', s' := Recorded(h, s, e), Next(s, e);
      && (id in h'.held <==> id in s'.local)
      && (id in s'.local ==>
           s'.local[id].id == id && Carries(h', s'.local[id], h'.held[id]) && AllDone(s', h'.held[id]))
  {
    hide Next, Recorded, Enabled, Inserts, Updates, Forgets, Carries, Settled;
    if Inserts(s, e, id) {
      InsertedCarries(h, s, e, id);
    } else if Updates(s, e, id) {
      UpdatedCarries(h, s, e, id);
    } else if Forgets(s, e, id) {
      GoneIsForgotten(h, s, e, id);
    } else {
      UnitStays(h, s, e, id);
      StepGrows(h, s, e);
      if id in s.local {
        BornIsKnown(h, s.local[id], h.held[id]);
        CarriesStays(h, Recorded(h, s, e), s.local[id], h.held[id]);
      }
    }
  }

  lemma ReaderCarries(h: History, s: State, e: Event, id: UnitId)
    requires Traced(h, s) && Settled(s, id) && Enabled(s, e) && Reads(s, e, id)
    ensures var h', s' := Recorded(h, s, e), Next(s, e);
      && h'.read == h.read[e.t := Held(h, id)]
      && s'.tasks == s.tasks[e.t := Updating(ApplyFeedback(s.local[id], s.tasks[e.t].feedback))]
      && TaskCarries(h', s', e.t, s'.tasks[e.t])
  {
    hide ApplyFeedback, Carries, Settled;
    var h', u := Recorded(h, s, e), s.local[id];
    assert TaskCarries(h, s, e.t, s.tasks[e.t]);
    SettledStays(s, e, id);
    ContentKept(u, s.tasks[e.t].feedback);
    CarriesOneMore(h, u, h.held[id], e.t);
    BornIsKnown(h, u, h.held[id]);
    CarriesStays(h, h', ApplyFeedback(u, s.tasks[e.t].feedback), h.held[id] + [e.t]);
  }

  lemma LocalIsSettled(s: State, id: UnitId)
    requires Fresh(s) && id in s.local
    ensures Settled(s, id)
  {
  }

  lemma OnlyReadersUpdate(h: History, s: State, e: Event)
    requires Enabled(s, e) && (e.Get? ==> !Reads(s, e, s.tasks[e.t].id))
    ensures e.t in Next(s, e).tasks
    ensures TaskCarries(Recorded(h, s, e), Next(s, e), e.t, Next(s, e).tasks[e.t])
  {
    hide ListingOf, Stored, Updatable, Insertable, ContentOf, ApplyFeedback, Carries, Settled;
  }

  lemma StepIsTraced(h: History, s: State, e: Event)
    requires Traced(h, s) && Fresh(s) && Enabled(s, e)
    ensures Traced(Recorded(h, s, e), Next(s, e))
  {
    hide Next, Recorded, TaskCarries, Fresh, Carries, AllDone;
    var h', s' := Recorded(h, s, e), Next(s, e);
    forall id ensures (id in h'.held <==> id in s'.local) &&
      (id in s'.local ==>
        s'.local[id].id == id && Carries(h', s'.local[id], h'.held[id]) && AllDone(s', h'.held[id]))
    {
      StepKeepsUnit(h, s, e, id);
    }
    OneTaskMoves(s, e);
    forall t | t in s'.tasks ensures TaskCarries(h', s', t, s'.tasks[t]) {
      if t == e.t {
        if e.Get? && Reads(s, e, s.tasks[e.t].id) {
          LocalIsSettled(s, s.tasks[e.t].id);
          ReaderCarries(h, s, e, s.tasks[e.t].id);
        } else {
          OnlyReadersUpdate(h, s, e);
        }
      } else {
        TaskStays(h, s, e, t);
      }
    }
  }

  lemma {:induction false} RunIsTraced(ss: seq<State>, es: seq<Event>, n: nat)
    requires IsRun(ss, es) && n < |ss|
    ensures Traced(HistoryAt(ss, es, n), ss[n])
  {
    hide Next, Enabled, Recorded;
    if n == 0 {
      StartIsTraced(ss[0]);
    } else {
      RunIsTraced(ss, es, n - 1);
      RunIsFresh(ss, es, n - 1);
      StepIsTraced(HistoryAt(ss, es, n - 1), ss[n - 1], es[n - 1]);
    }
  }

  lemma StartIsTraced(s: State)
    requires Init(s)
    ensures Traced(Start(s), s)
  {
  }

  /** In every interleaving, a stored unit is the one first stored with the feedback it holds applied in order. */
  lemma StoredIsFeedbackApplied(ss: seq<State>, es: seq<Event>, n: nat, id: UnitId)
    requires IsRun(ss, es) && n < |ss| && id in ss[n].local
    ensures var h := HistoryAt(ss, es, n);
      && id in h.born && id in h.held
      && ss[n].local[id] == ApplyAll(h.born[id], Given(h, h.held[id]))
  {
    RunIsTraced(ss, es, n);
  }

  // ---- When feedback is lost ----

  /** Nobody writes feedback to the unit from state `l` to state `d`. */
  ghost predicate NoUpdate(ss: seq<State>, es: seq<Event>, id: UnitId, l: nat, d: nat)
    requires IsRun(ss, es) && d < |ss|
  {
    forall i :: l <= i < d ==> !Updates(ss[i], es[i], id)
  }

  /** Nobody deletes the unit from state `l` to state `d`. */
  ghost predicate NoDelete(ss: seq<State>, es: seq<Event>, id: UnitId, l: nat, d: nat)
    requires IsRun(ss, es) && d < |ss|
  {
    forall i :: l <= i < d ==> !Forgets(ss[i], es[i], id)
  }

  ghost function HeldAt(ss: seq<State>, es: seq<Event>, id: UnitId, n: nat): seq<nat>
    requires IsRun(ss, es) && n < |ss|
  {
    Held(HistoryAt(ss, es, n), id)
  }

  lemma UpdateStays(s: State, e: Event, id: UnitId)
    requires Enabled(s, e) && Updates(s, e, id)
    ensures id in Next(s, e).local
  {
  }

  /** A stored unit stays exactly until it is deleted. */
  lemma {:induction false} StoredUntilDeleted(ss: seq<State>, es: seq<Event>, id: UnitId, l: nat, d: nat)
    requires IsRun(ss, es) && l <= d < |ss| && id in ss[l].local
    ensures Settled(ss[d], id)
    ensures id in ss[d].local <==> NoDelete(ss, es, id, l, d)
  {
    hide Next, Enabled, Settled, Updates, Inserts, Forgets, Init, Fresh;
    if l == d {
      RunIsFresh(ss, es, l);
      LocalIsSettled(ss[l], id);
    } else {
      StoredUntilDeleted(ss, es, id, l, d - 1);
      StepOfStored(ss[d - 1], es[d - 1], id);
      assert NoDelete(ss, es, id, l, d) <==>
             NoDelete(ss, es, id, l, d - 1) && !Forgets(ss[d - 1], es[d - 1], id);
    }
  }

  lemma StepOfStored(s: State, e: Event, id: UnitId)
    requires Enabled(s, e) && Settled(s, id)
    ensures Settled(Next(s, e), id)
    ensures id in Next(s, e).local <==> id in s.local && !Forgets(s, e, id)
    ensures !Inserts(s, e, id)
  {
    hide Next, Forgets, Updates;
    SettledStays(s, e, id);
    var h := Start(s);
    if id !in s.local {
      GoneStays(s, e, id);
    } else if Forgets(s, e, id) {
      GoneIsForgotten(h, s, e, id);
    } else if Updates(s, e, id) {
      UpdateStays(s, e, id);
    } else {
      UnitStays(h, s, e, id);
    }
  }

  /** Without updates a unit holds what it held. */
  lemma {:induction false} HeldStays(ss: seq<State>, es: seq<Event>, id: UnitId, l: nat, d: nat)
    requires IsRun(ss, es) && l <= d < |ss| && id in ss[l].local && id in ss[d].local
    requires NoUpdate(ss, es, id, l, d)
    ensures HeldAt(ss, es, id, d) == HeldAt(ss, es, id, l) && ss[d].local[id] == ss[l].local[id]
  {
    hide Next, Enabled, Settled, Updates, Inserts, Forgets, Init, Recorded, Held;
    if l < d {
      StoredUntilDeleted(ss, es, id, l, d - 1);
      StepOfStored(ss[d - 1], es[d - 1], id);
      HeldStays(ss, es, id, l, d - 1);
      UnitStays(HistoryAt(ss, es, d - 1), ss[d - 1], es[d - 1], id);
    }
  }

  /** After updates a unit holds the feedback of one of them. */
  lemma {:induction false} LastUpdate(ss: seq<State>, es: seq<Event>, id: UnitId, l: nat, d: nat) returns (k: nat)
    requires IsRun(ss, es) && l <= d < |ss| && id in ss[l].local && id in ss[d].local
    requires !NoUpdate(ss, es, id, l, d)
    ensures l <= k < d && Updates(ss[k], es[k], id) && es[k].t in HeldAt(ss, es, id, d)
  {
    hide Next, Enabled, Settled, Updates, Inserts, Forgets, Init, Recorded, Held, Traced;
    var h := HistoryAt(ss, es, d - 1);
    if Updates(ss[d - 1], es[d - 1], id) {
      k := d - 1;
      UpdateHolds(h, ss[k], es[k], id);
    } else {
      StoredUntilDeleted(ss, es, id, l, d - 1);
      StepOfStored(ss[d - 1], es[d - 1], id);
      k := LastUpdate(ss, es, id, l, d - 1);
      UnitStays(h, ss[d - 1], es[d - 1], id);
    }
  }

  lemma UpdateHolds(h: History, s: State, e: Event, id: UnitId)
    requires Enabled(s, e) && Updates(s, e, id)
    ensures Held(Recorded(h, s, e), id) == Read(h, e.t) + [e.t]
  {
  }

  lemma {:induction false} FinishedStays(ss: seq<State>, es: seq<Event>, t: nat, l: nat, d: nat)
    requires IsRun(ss, es) && l <= d < |ss| && t in ss[l].tasks && ss[l].tasks[t].Finished?
    ensures t in ss[d].tasks && ss[d].tasks[t].Finished?
  {
    hide Next, Init;
    if l < d {
      FinishedStays(ss, es, t, l, d - 1);
      StepGrows(Start(ss[0]), ss[d - 1], es[d - 1]);
    }
  }

  /** A unit holds feedback that it did not hold before exactly when somebody updated it. */
  lemma NothingNewExactly(ss: seq<State>, es: seq<Event>, id: UnitId, l: nat, d: nat)
    requires IsRun(ss, es) && l <= d < |ss| && id in ss[l].local && id in ss[d].local
    ensures (forall t :: t in HeldAt(ss, es, id, d) ==> t in HeldAt(ss, es, id, l)) <==> NoUpdate(ss, es, id, l, d)
  {
    hide Next, Init, Enabled, HistoryAt, Carries, TaskCarries, Updates;
    if NoUpdate(ss, es, id, l, d) {
      HeldStays(ss, es, id, l, d);
    } else {
      var k := LastUpdate(ss, es, id, l, d);
      RunIsTraced(ss, es, l);
      if es[k].t in HeldAt(ss, es, id, l) {
        FinishedStays(ss, es, es[k].t, l, k);
        UpdaterIsOpen(ss[k], es[k], id);
      }
    }
  }

  lemma UpdaterIsOpen(s: State, e: Event, id: UnitId)
    requires Enabled(s, e) && Updates(s, e, id)
    ensures e.t in s.tasks && s.tasks[e.t].Updating?
  {
  }

  lemma ReaderStarts(h: History, s: State, e: Event, id: UnitId)
    requires Enabled(s, e) && Reads(s, e, id)
    ensures var s' := Next(s, e);
      && e.t in s'.tasks && s'.tasks[e.t] == Updating(ApplyFeedback(s.local[id], s.tasks[e.t].feedback))
      && Read(Recorded(h, s, e), e.t) == Held(h, id)
  {
    hide ApplyFeedback;
  }

  lemma ReaderWaits(h: History, s: State, e: Event, t: nat)
    requires Enabled(s, e) && t in s.tasks && s.tasks[t].Updating?
    ensures var s' := Next(s, e);
      && t in s'.tasks && (s'.tasks[t].Finished? || s'.tasks[t] == s.tasks[t])
      && Read(Recorded(h, s, e), t) == Read(h, t)
  {
    hide Next, Updates, ListingOf;
    OneTaskMoves(s, e);
    if e.t == t {
      UpdaterFinishes(s, e);
    }
  }

  lemma UpdaterFinishes(s: State, e: Event)
    requires Enabled(s, e) && e.t in s.tasks && s.tasks[e.t].Updating?
    ensures e.Update? && e.t in Next(s, e).tasks && Next(s, e).tasks[e.t].Finished?
  {
  }

  /** What a task read stays with it until it writes. */
  lemma {:induction false} ReadStays(ss: seq<State>, es: seq<Event>, id: UnitId, i: nat, n: nat)
    requires IsRun(ss, es) && i < n < |ss| && Reads(ss[i], es[i], id)
    ensures var t := es[i].t;
      && t in ss[n].tasks
      && (ss[n].tasks[t].Finished?
          || (ss[n].tasks[t] == Updating(ApplyFeedback(ss[i].local[id], ss[i].tasks[t].feedback))
              && Read(HistoryAt(ss, es, n), t) == HeldAt(ss, es, id, i)))
  {
    hide ApplyFeedback, Next, Recorded, Init, Enabled, Held, Read;
    var h := HistoryAt(ss, es, n - 1);
    if n == i + 1 {
      ReaderStarts(h, ss[i], es[i], id);
    } else {
      ReadStays(ss, es, id, i, n - 1);
      if ss[n - 1].tasks[es[i].t].Finished? {
        StepGrows(h, ss[n - 1], es[n - 1]);
      } else {
        ReaderWaits(h, ss[n - 1], es[n - 1], es[i].t);
      }
    }
  }

  /**
   An update writes what its task read and the feedback of that task. It keeps all feedback held before exactly
   when nobody else updated the unit after the task read it; feedback written in between is lost.
   */
  lemma UpdateKeepsFeedback(ss: seq<State>, es: seq<Event>, id: UnitId, i: nat, j: nat)
    requires IsRun(ss, es) && i < j < |es| && es[i].t == es[j].t
    requires Reads(ss[i], es[i], id) && Updates(ss[j], es[j], id)
    ensures HeldAt(ss, es, id, j + 1) == HeldAt(ss, es, id, i) + [es[j].t]
    ensures (forall t :: t in HeldAt(ss, es, id, j) ==> t in HeldAt(ss, es, id, j + 1))
            <==> NoUpdate(ss, es, id, i, j)
  {
    hide Next, Init, Recorded, ApplyFeedback, Held, Read, Carries, TaskCarries;
    UpdaterIsOpen(ss[j], es[j], id);
    ReadStays(ss, es, id, i, j);
    UpdateHolds(HistoryAt(ss, es, j), ss[j], es[j], id);
    NothingNewExactly(ss, es, id, i, j);
    OwnIsNew(ss, es, id, j);
  }

  /** A unit does not hold feedback that is still to be written. */
  lemma OwnIsNew(ss: seq<State>, es: seq<Event>, id: UnitId, j: nat)
    requires IsRun(ss, es) && j < |es| && Updates(ss[j], es[j], id)
    ensures es[j].t !in HeldAt(ss, es, id, j)
  {
    hide Next, Init, Recorded, Carries, TaskCarries, HistoryAt;
    RunIsTraced(ss, es, j);
  }

  /** Feedback that was read for a stored unit is written exactly when nobody deleted the unit in between. */
  lemma FeedbackIsWritten(ss: seq<State>, es: seq<Event>, id: UnitId, i: nat, j: nat)
    requires IsRun(ss, es) && i < j < |es| && Reads(ss[i], es[i], id) && es[j] == Event.Update(es[i].t, false)
    ensures es[j].t in HeldAt(ss, es, id, j + 1) <==> NoDelete(ss, es, id, i, j)
  {
    hide Next, Init, Recorded, ApplyFeedback, Reads, Read, Held, Inserts, Updates, Forgets;
    ReadIsStored(ss[i], es[i], id);
    StoredUntilDeleted(ss, es, id, i, j);
    StepOfStored(ss[j], es[j], id);
    if id in ss[j].local {
      WriterWrites(ss, es, id, i, j);
      UpdateHolds(HistoryAt(ss, es, j), ss[j], es[j], id);
    } else {
      GoneHoldsNothing(ss, es, id, j + 1);
    }
  }

  lemma ReadIsStored(s: State, e: Event, id: UnitId)
    requires Enabled(s, e) && Reads(s, e, id)
    ensures id in s.local
  {
  }

  lemma GoneHoldsNothing(ss: seq<State>, es: seq<Event>, id: UnitId, n: nat)
    requires IsRun(ss, es) && n < |ss| && id !in ss[n].local
    ensures HeldAt(ss, es, id, n) == []
  {
    hide IsRun, HistoryAt, Carries, TaskCarries;
    RunIsTraced(ss, es, n);
  }

  lemma LocalIsNamed(ss: seq<State>, es: seq<Event>, id: UnitId, n: nat)
    requires IsRun(ss, es) && n < |ss| && id in ss[n].local
    ensures ss[n].local[id].id == id
  {
    hide Next, Init, HistoryAt, Carries, TaskCarries;
    RunIsTraced(ss, es, n);
  }

  lemma WriterWrites(ss: seq<State>, es: seq<Event>, id: UnitId, i: nat, j: nat)
    requires IsRun(ss, es) && i < j < |es| && Reads(ss[i], es[i], id) && es[j] == Event.Update(es[i].t, false)
    requires id in ss[j].local
    ensures Updates(ss[j], es[j], id)
  {
    hide Next, Init, Recorded, ApplyFeedback, HistoryAt, Read, Settled, UnitsCarry, Carries, Normalized;
    ReadStays(ss, es, id, i, j);
    LocalIsNamed(ss, es, id, i);
    ContentKept(ss[i].local[id], ss[i].tasks[es[i].t].feedback);
    RunIsTraced(ss, es, j);
    var t := es[j].t;
    var h, task := HistoryAt(ss, es, j), ss[j].tasks[t];
    assert task.Updating? && TaskCarries(h, ss[j], t, task);
    CarriesIsStored(h, task.u, Read(h, t) + [t]);
  }

  // ---- What a drain pushes ----

  /** The units a drain listed stay with it. */
  lemma {:induction false} ListingStays(ss: seq<State>, es: seq<Event>, l: nat, n: nat)
    requires IsRun(ss, es) && l < n < |ss| && es[l].List? && !es[l].fails
    ensures var t := es[l].t;
      && t in ss[n].tasks
      && (ss[n].tasks[t].Finished?
          || ((ss[n].tasks[t].Scanning? || ss[n].tasks[t].Deleting?) && ss[n].tasks[t].units == es[l].listed))
  {
    hide Next, Init, Enabled;
    if n == l + 1 {
      ListerScans(ss[l], es[l]);
    } else {
      ListingStays(ss, es, l, n - 1);
      DrainGoesOn(ss[n - 1], es[n - 1], es[l].t);
    }
  }

  lemma ListerScans(s: State, e: Event)
    requires Enabled(s, e) && e.List? && !e.fails
    ensures e.t in Next(s, e).tasks && Next(s, e).tasks[e.t] == Scanning(e.listed, 0)
  {
  }

  lemma DrainGoesOn(s: State, e: Event, t: nat)
    requires Enabled(s, e) && t in s.tasks
    requires s.tasks[t].Finished? || s.tasks[t].Scanning? || s.tasks[t].Deleting?
    ensures var s' := Next(s, e);
      && t in s'.tasks
      && (s'.tasks[t].Finished?
          || (!s.tasks[t].Finished? && (s'.tasks[t].Scanning? || s'.tasks[t].Deleting?)
              && s'.tasks[t].units == s.tasks[t].units))
  {
    hide ListingOf, ContentOf;
    OneTaskMoves(s, e);
  }

  /**
   The unit a drain pushes or deletes is the one it listed. Its copy carries all the feedback that the stored unit
   holds by then exactly when nobody updated the unit in between; later feedback goes with the delete.
   */
  lemma PushCarriesFeedback(ss: seq<State>, es: seq<Event>, l: nat, d: nat, u: Unit)
    requires IsRun(ss, es) && l < d < |es| && es[l].List? && !es[l].fails
    requires (es[d].Push? || es[d].Delete?) && es[d].t == es[l].t
    requires u == ss[d].tasks[es[d].t].units[ss[d].tasks[es[d].t].next]
    ensures u.id in ss[l].local && ss[l].local[u.id] == u
    ensures Carries(HistoryAt(ss, es, l), u, HeldAt(ss, es, u.id, l))
    ensures u.id in ss[d].local ==>
      ((forall t :: t in HeldAt(ss, es, u.id, d) ==> t in HeldAt(ss, es, u.id, l)) <==> NoUpdate(ss, es, u.id, l, d))
  {
    hide Next, Init, HistoryAt, Carries, TaskCarries;
    ListingStays(ss, es, l, d);
    assert u in es[l].listed;
    RunIsTraced(ss, es, l);
    if u.id in ss[d].local {
      NothingNewExactly(ss, es, u.id, l, d);
    }
  }

  lemma FedBackIsStored(u: Unit, f: Feedback)
    requires IsNormalized(u.domains) && u.domains != []
    ensures var v := ApplyFeedback(u, f); v.id == u.id && Stored(v) == v && Normalized(v.domains) != []
  {
    NormalizedFixed(u.domains);
  }

  /** What `t` read before an update is written over that update. */
  lemma WriteOver(s: State, u: Unit, v: Unit, t: nat)
    requires s.local == map[v.id := u] && t in s.tasks && s.tasks[t] == Updating(v)
    requires Stored(v) == v && Normalized(v.domains) != []
    ensures var e := Event.Update(t, false);
      Enabled(s, e) && Updates(s, e, v.id) && Next(s, e) == Goto(s.(local := map[v.id := v]), t, Finished)
  {
    assert s.local[v.id := v] == map[v.id := v];
  }

  lemma StartsReading(s: State, t: nat, id: UnitId, f: Feedback)
    requires t !in s.tasks
    ensures var e := StartFeedback(t, id, f); Enabled(s, e) && Next(s, e) == Goto(s, t, Reading(id, f))
  {
  }

  lemma ReadsLocal(s: State, t: nat, u: Unit, f: Feedback)
    requires t in s.tasks && s.tasks[t] == Reading(u.id, f) && s.local == map[u.id := u]
    ensures var e := Get(t, false); Enabled(s, e) && Next(s, e) == Goto(s, t, Updating(ApplyFeedback(u, f)))
  {
  }

  lemma OneUnitIsStart(s: State, u: Unit)
    requires IsNormalized(u.domains) && u.domains != []
    requires s.local == map[u.id := u] && s.accepted == [] && s.tasks == map[] && s.kept == s.local.Keys
    requires s.proposed == map id | id in s.local :: ContentOf(s.local[id])
    ensures Init(s)
  {
  }

  /** Two tasks that both read before either writes: each update succeeds, and only the second one's feedback stays. */
  lemma SecondWriterWins(u: Unit, f: Feedback, g: Feedback) returns (ss: seq<State>, es: seq<Event>)
    requires IsNormalized(u.domains) && u.domains != []
    ensures IsRun(ss, es) && |es| == 6
    ensures Updates(ss[4], es[4], u.id) && Updates(ss[5], es[5], u.id)
    ensures ss[5].local == map[u.id := ApplyFeedback(u, f)] && ss[6].local == map[u.id := ApplyFeedback(u, g)]
  {
    hide ApplyFeedback, Normalized, IsNormalized, Stored, Updates, Next, Enabled, Init;
    var v, w := ApplyFeedback(u, f), ApplyFeedback(u, g);
    FedBackIsStored(u, f);
    FedBackIsStored(u, g);
    var local := map[u.id := u];
    var s0 := State(false, local, [], map[], map id | id in local :: ContentOf(local[id]), local.Keys);
    var s1 := Goto(s0, 0, Reading(u.id, f));
    var s2 := Goto(s1, 1, Reading(u.id, g));
    var s3 := Goto(s2, 0, Updating(v));
    var s4 := Goto(s3, 1, Updating(w));
    var s5 := Goto(s4.(local := map[u.id := v]), 0, Finished);
    var s6 := Goto(s5.(local := map[u.id := w]), 1, Finished);
    OneUnitIsStart(s0, u);
    StartsReading(s0, 0, u.id, f);
    StartsReading(s1, 1, u.id, g);
    ReadsLocal(s2, 0, u, f);
    ReadsLocal(s3, 1, u, g);
    WriteOver(s4, u, v, 0);
    WriteOver(s5, v, w, 1);
    es := [StartFeedback(0, u.id, f), StartFeedback(1, u.id, g), Get(0, false), Get(1, false),
           Event.Update(0, false), Event.Update(1, false)];
    ss := [s0, s1, s2, s3, s4, s5, s6];
  }
}
