/**
 Propose, Confirm, Flag and Drain running concurrently against one local store and one remote. Each store
 call and each remote call is one atomic step; a task is what a client operation is about to do next.
 */
module DrainProtocol {
  import opened Units
  import opened Store
  import Scoring

  /** How a remote propose ends. After `ReplyLost` the remote has the unit and the client does not know. */
  datatype Outcome = Accepted | ReplyLost | AuthRejected | Rejected | Unreachable

  datatype Task =
    | Proposing(u: Unit)
    | Inserting(u: Unit)
    | Reading(id: UnitId, feedback: Scoring.Feedback)
    | Updating(u: Unit)
    | Listing
    | Scanning(units: seq<Unit>, next: nat)
    | Deleting(units: seq<Unit>, next: nat)
    | Finished

  /**
   `accepted` is what the remote took, in order. `proposed` records the content every id was created with
   and `kept` the ids whose Propose returned success or a fallback error, or that were stored initially.
   */
  datatype State = State(
    hasRemote: bool,
    local: map<UnitId, Unit>,
    accepted: seq<(UnitId, Content)>,
    tasks: map<nat, Task>,
    proposed: map<UnitId, Content>,
    kept: set<UnitId>)

  datatype Event =
    | StartPropose(t: nat, u: Unit)
    | StartFeedback(t: nat, id: UnitId, feedback: Scoring.Feedback)
    | StartDrain(t: nat)
    | CallRemote(t: nat, outcome: Outcome)
    | Insert(t: nat, fails: bool)
    | Get(t: nat, fails: bool)
    | Update(t: nat, fails: bool)
    | List(t: nat, listed: seq<Unit>, fails: bool)
    | Push(t: nat, outcome: Outcome)
    | Stop(t: nat)
    | Delete(t: nat, fails: bool)

  ghost predicate ListingOf(listed: seq<Unit>, local: map<UnitId, Unit>) {
    && (forall i, j :: 0 <= i < j < |listed| ==> listed[i].id != listed[j].id)
    && (forall u: Unit :: u in listed <==> u.id in local && local[u.id] == u)
  }

  ghost predicate Init(s: State) {
    && UnitsOk(s.local)
    && s.accepted == [] && s.tasks == map[]
    && s.proposed == (map id | id in s.local :: ContentOf(s.local[id]))
    && s.kept == s.local.Keys
  }

  ghost predicate Enabled(s: State, e: Event) {
    match e
    case StartPropose(t, u) => t !in s.tasks && u.id !in s.proposed && u.tier == Local
    case StartFeedback(t, _, _) => t !in s.tasks
    case StartDrain(t) => t !in s.tasks && s.hasRemote
    case CallRemote(t, _) => t in s.tasks && s.tasks[t].Proposing?
    case Insert(t, _) => t in s.tasks && s.tasks[t].Inserting?
    case Get(t, _) => t in s.tasks && s.tasks[t].Reading?
    case Update(t, _) => t in s.tasks && s.tasks[t].Updating?
    case List(t, listed, _) => t in s.tasks && s.tasks[t].Listing? && ListingOf(listed, s.local)
    case Push(t, _) => t in s.tasks && s.tasks[t].Scanning? && s.tasks[t].next < |s.tasks[t].units|
    case Stop(t) => t in s.tasks && s.tasks[t].Scanning?
    case Delete(t, _) => t in s.tasks && s.tasks[t].Deleting? && s.tasks[t].next < |s.tasks[t].units|
  }

  function Goto(s: State, t: nat, task: Task): State {
    s.(tasks := s.tasks[t := task])
  }

  function Accept(s: State, u: Unit, outcome: Outcome): State {
    if outcome.Accepted? || outcome.ReplyLost?
    then s.(accepted := s.accepted + [(u.id, ContentOf(u))])
    else s
  }

  ghost function Next(s: State, e: Event): State
    requires Enabled(s, e)
  {
    match e
    case StartPropose(t, u) =>
      Goto(s.(proposed := s.proposed[u.id := ContentOf(u)]), t, if s.hasRemote then Proposing(u) else Inserting(u))
    case StartFeedback(t, id, feedback) => Goto(s, t, Reading(id, feedback))
    case StartDrain(t) => Goto(s, t, Listing)
    case CallRemote(t, outcome) =>
      var u := s.tasks[t].u;
      var s' := Accept(s, u, outcome);
      (match outcome
       case Accepted => Goto(s'.(kept := s'.kept + {u.id}), t, Finished)
       case Rejected => Goto(s', t, Finished)
       case _ => Goto(s', t, Inserting(u)))
    case Insert(t, fails) =>
      var u := s.tasks[t].u;
      if fails || !Insertable(s.local, u) then Goto(s, t, Finished)
      else Goto(s.(local := s.local[u.id := Stored(u)], kept := s.kept + {u.id}), t, Finished)
    case Get(t, fails) =>
      var id := s.tasks[t].id;
      if fails || id !in s.local then Goto(s, t, Finished)
      else Goto(s, t, Updating(Scoring.ApplyFeedback(s.local[id], s.tasks[t].feedback)))
    case Update(t, fails) =>
      var u := s.tasks[t].u;
      if fails || !Updatable(s.local, u) then Goto(s, t, Finished)
      else Goto(s.(local := s.local[u.id := Stored(u)]), t, Finished)
    case List(t, listed, fails) => Goto(s, t, if fails then Finished else Scanning(listed, 0))
    case Push(t, outcome) =>
      var units, next := s.tasks[t].units, s.tasks[t].next;
      if units[next].tier != Local then Goto(s, t, Scanning(units, next + 1))
      else Goto(Accept(s, units[next], outcome), t,
                if outcome.Accepted? then Deleting(units, next) else Scanning(units, next + 1))
    case Stop(t) => Goto(s, t, Finished)
    case Delete(t, fails) =>
      var units, next := s.tasks[t].units, s.tasks[t].next;
      Goto(if fails then s else s.(local := s.local - {units[next].id}), t, Scanning(units, next + 1))
  }

  ghost predicate IsRun(ss: seq<State>, es: seq<Event>) {
    && |ss| == |es| + 1
    && Init(ss[0])
    && forall i :: 0 <= i < |es| ==> Enabled(ss[i], es[i]) && ss[i + 1] == Next(ss[i], es[i])
  }

  // ---- Nothing lost, nothing invented ----

  ghost predicate Faithful(u: Unit, proposed: map<UnitId, Content>) {
    u.id in proposed && ContentOf(u) == proposed[u.id]
  }

  function UnitsOf(task: Task): seq<Unit> {
    match task
    case Proposing(u) => [u]
    case Inserting(u) => [u]
    case Updating(u) => [u]
    case Scanning(units, _) => units
    case Deleting(units, _) => units
    case _ => []
  }

  ghost predicate TaskOk(task: Task, s: State) {
    && (forall u :: u in UnitsOf(task) ==> Faithful(u, s.proposed))
    && (task.Deleting? ==>
         && task.next < |task.units|
         && (task.units[task.next].id, ContentOf(task.units[task.next])) in s.accepted)
  }

  ghost predicate Inv(s: State) {
    && UnitsOk(s.local)
    && (forall id :: id in s.local ==> Faithful(s.local[id], s.proposed))
    && (forall t :: t in s.tasks ==> TaskOk(s.tasks[t], s))
    && (forall a :: a in s.accepted ==> a.0 in s.proposed && a.1 == s.proposed[a.0])
    && (forall id :: id in s.kept ==> id in s.proposed && (id in s.local || (id, s.proposed[id]) in s.accepted))
  }

  /** Storing a unit, or giving feedback on it, does not change what it says. */
  lemma ContentKept(u: Unit, f: Scoring.Feedback)
    ensures ContentOf(Stored(u)) == ContentOf(u)
    ensures Normalized(u.domains) != [] ==> IsNormalized(Stored(u).domains) && Stored(u).id == u.id
    ensures ContentOf(Scoring.ApplyFeedback(u, f)) == ContentOf(u) && Scoring.ApplyFeedback(u, f).id == u.id
  {
    NormalizedProperties(u.domains);
    NormalizedFixed(Normalized(u.domains));
  }

  // A step is at most one change of the shared state followed by a change of one task.

  lemma GotoKeepsInv(s: State, t: nat, task: Task)
    requires Inv(s) && TaskOk(task, s)
    ensures Inv(Goto(s, t, task))
  {
    hide UnitsOk, Normalized;
    var s' := Goto(s, t, task);
    forall k | k in s'.tasks ensures TaskOk(s'.tasks[k], s') {
      if k != t {
        assert TaskOk(s.tasks[k], s);
      }
    }
  }

  lemma ProposeKeepsInv(s: State, u: Unit)
    requires Inv(s) && u.id !in s.proposed
    ensures Inv(s.(proposed := s.proposed[u.id := ContentOf(u)]))
  {
    hide UnitsOk, Normalized;
    var s' := s.(proposed := s.proposed[u.id := ContentOf(u)]);
    forall k | k in s'.tasks ensures TaskOk(s'.tasks[k], s') {
      assert TaskOk(s.tasks[k], s);
    }
  }

  lemma AcceptKeepsInv(s: State, u: Unit, outcome: Outcome)
    requires Inv(s) && Faithful(u, s.proposed)
    ensures Inv(Accept(s, u, outcome))
    ensures outcome.Accepted? ==> (u.id, ContentOf(u)) in Accept(s, u, outcome).accepted
  {
    hide UnitsOk, Normalized;
    var s' := Accept(s, u, outcome);
    assert forall a :: a in s'.accepted ==> a in s.accepted || a == (u.id, ContentOf(u));
    assert forall a :: a in s.accepted ==> a in s'.accepted;
    forall k | k in s'.tasks ensures TaskOk(s'.tasks[k], s') {
      assert TaskOk(s.tasks[k], s);
    }
  }

  lemma StoreKeepsInv(s: State, u: Unit)
    requires Inv(s) && Faithful(u, s.proposed) && Normalized(u.domains) != []
    ensures Inv(s.(local := s.local[u.id := Stored(u)]))
  {
    hide IsNormalized;
    ContentKept(u, Scoring.Confirmation(0));
    forall k | k in s.tasks ensures TaskOk(s.tasks[k], s.(local := s.local[u.id := Stored(u)])) {
      assert TaskOk(s.tasks[k], s);
    }
  }

  lemma ForgetKeepsInv(s: State, id: UnitId)
    requires Inv(s) && id in s.proposed && (id, s.proposed[id]) in s.accepted
    ensures Inv(s.(local := s.local - {id}))
  {
    hide IsNormalized, Normalized;
    forall k | k in s.tasks ensures TaskOk(s.tasks[k], s.(local := s.local - {id})) {
      assert TaskOk(s.tasks[k], s);
    }
  }

  lemma KeepKeepsInv(s: State, id: UnitId)
    requires Inv(s) && id in s.proposed && (id in s.local || (id, s.proposed[id]) in s.accepted)
    ensures Inv(s.(kept := s.kept + {id}))
  {
    hide UnitsOk, Normalized;
    forall k | k in s.tasks ensures TaskOk(s.tasks[k], s.(kept := s.kept + {id})) {
      assert TaskOk(s.tasks[k], s);
    }
  }

  lemma ClientStepKeepsInv(s: State, e: Event)
    requires Inv(s) && Enabled(s, e) && (e.CallRemote? || e.Insert? || e.Update?)
    ensures Inv(Next(s, e))
  {
    hide UnitsOk, ContentOf, Stored;
    var task := s.tasks[e.t];
    var u := task.u;
    assert TaskOk(task, s) && u in UnitsOf(task);
    match e {
      case CallRemote(t, outcome) =>
        var s1 := Accept(s, u, outcome);
        AcceptKeepsInv(s, u, outcome);
        if outcome.Accepted? {
          KeepKeepsInv(s1, u.id);
          GotoKeepsInv(s1.(kept := s1.kept + {u.id}), t, Finished);
        } else {
          GotoKeepsInv(s1, t, Finished);
          GotoKeepsInv(s1, t, Inserting(u));
        }
      case Insert(t, fails) =>
        GotoKeepsInv(s, t, Finished);
        if !fails && Insertable(s.local, u) {
          var s1 := s.(local := s.local[u.id := Stored(u)]);
          StoreKeepsInv(s, u);
          KeepKeepsInv(s1, u.id);
          GotoKeepsInv(s1.(kept := s1.kept + {u.id}), t, Finished);
        }
      case Update(t, fails) =>
        GotoKeepsInv(s, t, Finished);
        if !fails && Updatable(s.local, u) {
          StoreKeepsInv(s, u);
          GotoKeepsInv(s.(local := s.local[u.id := Stored(u)]), t, Finished);
        }
    }
  }

  lemma PushKeepsInv(s: State, e: Event)
    requires Inv(s) && Enabled(s, e) && e.Push?
    ensures Inv(Next(s, e))
  {
    hide UnitsOk, ContentOf;
    var task := s.tasks[e.t];
    var u := task.units[task.next];
    assert TaskOk(task, s) && u in UnitsOf(task);
    var s1 := Accept(s, u, e.outcome);
    AcceptKeepsInv(s, u, e.outcome);
    if u.tier != Local {
      GotoKeepsInv(s, e.t, Scanning(task.units, task.next + 1));
    } else if e.outcome.Accepted? {
      GotoKeepsInv(s1, e.t, Deleting(task.units, task.next));
    } else {
      GotoKeepsInv(s1, e.t, Scanning(task.units, task.next + 1));
    }
  }

  lemma DeleteKeepsInv(s: State, e: Event)
    requires Inv(s) && Enabled(s, e) && e.Delete?
    ensures Inv(Next(s, e))
  {
    hide UnitsOk, ContentOf;
    var task := s.tasks[e.t];
    var u := task.units[task.next];
    assert TaskOk(task, s) && u in UnitsOf(task);
    GotoKeepsInv(s, e.t, Scanning(task.units, task.next + 1));
    ForgetKeepsInv(s, u.id);
    GotoKeepsInv(s.(local := s.local - {u.id}), e.t, Scanning(task.units, task.next + 1));
  }

  lemma GetKeepsInv(s: State, e: Event)
    requires Inv(s) && Enabled(s, e) && e.Get?
    ensures Inv(Next(s, e))
  {
    hide UnitsOk, ContentOf, Scoring.ApplyFeedback;
    var id, feedback := s.tasks[e.t].id, s.tasks[e.t].feedback;
    GotoKeepsInv(s, e.t, Finished);
    if id in s.local {
      ContentKept(s.local[id], feedback);
      GotoKeepsInv(s, e.t, Updating(Scoring.ApplyFeedback(s.local[id], feedback)));
    }
  }

  lemma ListKeepsInv(s: State, e: Event)
    requires Inv(s) && Enabled(s, e) && e.List?
    ensures Inv(Next(s, e))
  {
    hide UnitsOk, ContentOf;
    GotoKeepsInv(s, e.t, Finished);
    GotoKeepsInv(s, e.t, Scanning(e.listed, 0));
  }

  lemma StartStepKeepsInv(s: State, e: Event)
    requires Inv(s) && Enabled(s, e) && (e.StartPropose? || e.StartFeedback? || e.StartDrain? || e.Stop?)
    ensures Inv(Next(s, e))
  {
    hide UnitsOk, Normalized;
    match e {
      case StartPropose(t, u) =>
        ProposeKeepsInv(s, u);
        GotoKeepsInv(s.(proposed := s.proposed[u.id := ContentOf(u)]), t,
                     if s.hasRemote then Proposing(u) else Inserting(u));
      case StartFeedback(t, id, feedback) => GotoKeepsInv(s, t, Reading(id, feedback));
      case StartDrain(t) => GotoKeepsInv(s, t, Listing);
      case Stop(t) => GotoKeepsInv(s, t, Finished);
    }
  }

  lemma StepKeepsInv(s: State, e: Event)
    requires Inv(s) && Enabled(s, e)
    ensures Inv(Next(s, e))
  {
    if e.CallRemote? || e.Insert? || e.Update? {
      ClientStepKeepsInv(s, e);
    } else if e.Push? {
      PushKeepsInv(s, e);
    } else if e.Delete? {
      DeleteKeepsInv(s, e);
    } else if e.Get? {
      GetKeepsInv(s, e);
    } else if e.List? {
      ListKeepsInv(s, e);
    } else {
      StartStepKeepsInv(s, e);
    }
  }

  lemma {:induction false} RunKeepsInv(ss: seq<State>, es: seq<Event>, n: nat)
    requires IsRun(ss, es) && n < |ss|
    ensures Inv(ss[n])
  {
    if n == 0 {
    } else {
      RunKeepsInv(ss, es, n - 1);
      StepKeepsInv(ss[n - 1], es[n - 1]);
    }
  }

  /**
   In every interleaving, each unit whose Propose returned success or a fallback error is in the local
   store with the content it was proposed with, or that content was accepted by the remote; and the remote
   accepted nothing but proposed content.
   */
  lemma NothingLost(ss: seq<State>, es: seq<Event>, n: nat)
    requires IsRun(ss, es) && n < |ss|
    ensures forall id :: id in ss[n].kept ==>
      && id in ss[n].proposed
      && ((id in ss[n].local && ContentOf(ss[n].local[id]) == ss[n].proposed[id])
          || (id, ss[n].proposed[id]) in ss[n].accepted)
    ensures forall a :: a in ss[n].accepted ==> a.0 in ss[n].proposed && a.1 == ss[n].proposed[a.0]
  {
    RunKeepsInv(ss, es, n);
    forall id | id in ss[n].kept && id in ss[n].local
      ensures ContentOf(ss[n].local[id]) == ss[n].proposed[id]
    {
      assert Faithful(ss[n].local[id], ss[n].proposed);
    }
  }

  // ---- The same over the events of a run ----

  lemma StepKeepsPromises(s: State, e: Event)
    requires Enabled(s, e)
    ensures s.kept <= Next(s, e).kept && Next(s, e).hasRemote == s.hasRemote
    ensures forall id :: id in s.proposed ==> id in Next(s, e).proposed && Next(s, e).proposed[id] == s.proposed[id]
  {
    hide ContentOf, Stored, Insertable, Updatable, ListingOf, Scoring.ApplyFeedback;
  }

  lemma {:induction false} PromisesStay(ss: seq<State>, es: seq<Event>, i: nat, n: nat)
    requires IsRun(ss, es) && i <= n < |ss|
    ensures ss[i].kept <= ss[n].kept
    ensures forall id :: id in ss[i].proposed ==> id in ss[n].proposed && ss[n].proposed[id] == ss[i].proposed[id]
  {
    hide Next, Enabled, Init;
    if i < n {
      PromisesStay(ss, es, i, n - 1);
      StepKeepsPromises(ss[n - 1], es[n - 1]);
    }
  }

  /** What `u` says is in the local store or was accepted by the remote. */
  ghost predicate IsSafe(s: State, u: Unit) {
    || (u.id in s.local && ContentOf(s.local[u.id]) == ContentOf(u))
    || (u.id, ContentOf(u)) in s.accepted
  }

  lemma KeptIsSafe(ss: seq<State>, es: seq<Event>, i: nat, n: nat, u: Unit)
    requires IsRun(ss, es) && i <= n < |ss| && u.id in ss[i].kept && Faithful(u, ss[i].proposed)
    ensures IsSafe(ss[n], u)
  {
    hide IsRun, ContentOf;
    NothingLost(ss, es, n);
    PromisesStay(ss, es, i, n);
  }

  /** A Propose that the remote accepted or the store took is safe from then on, whatever runs beside it. */
  lemma ProposeIsNeverLost(ss: seq<State>, es: seq<Event>, i: nat, n: nat)
    requires IsRun(ss, es) && i < n < |ss|
    requires || (es[i].CallRemote? && es[i].outcome == Accepted)
             || (es[i].Insert? && !es[i].fails && Insertable(ss[i].local, ss[i].tasks[es[i].t].u))
    ensures IsSafe(ss[n], ss[i].tasks[es[i].t].u)
  {
    hide Inv, IsSafe, ContentOf, Stored, Insertable, Init;
    var u := ss[i].tasks[es[i].t].u;
    RunKeepsInv(ss, es, i);
    TaskIsFaithful(ss[i], es[i].t);
    StepKeepsPromises(ss[i], es[i]);
    KeptIsSafe(ss, es, i + 1, n, u);
  }

  lemma TaskIsFaithful(s: State, t: nat)
    requires Inv(s) && t in s.tasks
    ensures forall u :: u in UnitsOf(s.tasks[t]) ==> Faithful(u, s.proposed)
  {
    assert TaskOk(s.tasks[t], s);
  }

  /** So is every unit that was stored at the beginning. */
  lemma StoredIsNeverLost(ss: seq<State>, es: seq<Event>, n: nat, id: UnitId)
    requires IsRun(ss, es) && n < |ss| && id in ss[0].local
    ensures IsSafe(ss[n], ss[0].local[id])
  {
    hide IsSafe, ContentOf, Next, Enabled, IsNormalized;
    KeptIsSafe(ss, es, 0, n, ss[0].local[id]);
  }
}
