/** In the drain protocol an id is created by one Propose only, so a unit that is gone never comes back. */
module FreshIds {
  import opened Units
  import opened Store
  import opened DrainProtocol

  /** A Propose that has not put its unit anywhere for good yet. */
  predicate Pending(task: Task) {
    task.Proposing? || task.Inserting?
  }

  function Listed(task: Task): seq<Unit> {
    match task
    case Scanning(units, _) => units
    case Deleting(units, _) => units
    case _ => []
  }

  /** No Propose will store or send a unit with this id any more. */
  ghost predicate Settled(s: State, id: UnitId) {
    && id in s.proposed
    && (forall t :: t in s.tasks && Pending(s.tasks[t]) ==> s.tasks[t].u.id != id)
  }

  ghost predicate DistinctIds(units: seq<Unit>) {
    forall i, j :: 0 <= i < j < |units| ==> units[i].id != units[j].id
  }

  ghost predicate Fresh(s: State) {
    && (forall id :: id in s.local ==> Settled(s, id))
    && (forall t :: t in s.tasks && Pending(s.tasks[t]) ==> s.tasks[t].u.id in s.proposed)
    && (forall t, t' :: t in s.tasks && t' in s.tasks && t != t' && Pending(s.tasks[t]) && Pending(s.tasks[t']) ==>
          s.tasks[t].u.id != s.tasks[t'].u.id)
    && (forall t :: t in s.tasks ==>
          DistinctIds(Listed(s.tasks[t])) && forall u :: u in Listed(s.tasks[t]) ==> Settled(s, u.id))
  }

  /** Once settled, always settled. */
  lemma SettledStays(s: State, e: Event, id: UnitId)
    requires Enabled(s, e) && Settled(s, id)
    ensures Settled(Next(s, e), id)
  {
    hide Next, ListingOf, Insertable, Updatable;
    OneTaskMoves(s, e);
    TaskMoves(s, e);
    ProposedGrows(s, e);
  }

  /** Once settled and gone, a unit is gone for good. */
  lemma GoneStays(s: State, e: Event, id: UnitId)
    requires Enabled(s, e) && Settled(s, id) && id !in s.local
    ensures id !in Next(s, e).local
  {
  }

  /** A step moves one task, and no other. */
  lemma OneTaskMoves(s: State, e: Event)
    requires Enabled(s, e)
    ensures e.t in Next(s, e).tasks && Next(s, e).tasks == s.tasks[e.t := Next(s, e).tasks[e.t]]
  {
    hide ContentOf, Stored, Insertable, Updatable, ListingOf, Scoring.ApplyFeedback;
  }

  /** A task has the unit it proposes and the units it lists from before the step, or from the event. */
  lemma TaskMoves(s: State, e: Event)
    requires Enabled(s, e)
    ensures e.t in Next(s, e).tasks
    ensures var task := Next(s, e).tasks[e.t];
      && (Pending(task) ==>
           if e.StartPropose? then task.u == e.u
           else e.t in s.tasks && Pending(s.tasks[e.t]) && s.tasks[e.t].u == task.u)
      && (Listed(task) != [] ==>
           if e.List? then Listed(task) == e.listed
           else e.t in s.tasks && Listed(s.tasks[e.t]) == Listed(task))
  {
    hide ContentOf, Stored, Insertable, Updatable, ListingOf, Scoring.ApplyFeedback;
  }

  lemma StepKeepsFresh(s: State, e: Event)
    requires Fresh(s) && Enabled(s, e)
    ensures Fresh(Next(s, e))
  {
    hide ContentOf, Stored, Settled, Next;
    var s' := Next(s, e);
    forall id | id in s'.local ensures Settled(s', id) {
      StoredIsSettled(s, e, id);
    }
    forall t | t in s'.tasks
      ensures DistinctIds(Listed(s'.tasks[t])) && forall u :: u in Listed(s'.tasks[t]) ==> Settled(s', u.id)
    {
      OneTaskMoves(s, e);
      TaskMoves(s, e);
      forall u | u in Listed(s'.tasks[t]) ensures Settled(s', u.id) {
        SettledStays(s, e, u.id);
      }
    }
    StepKeepsPending(s, e);
  }

  lemma StoredIsSettled(s: State, e: Event, id: UnitId)
    requires Fresh(s) && Enabled(s, e) && id in Next(s, e).local
    ensures Settled(Next(s, e), id)
  {
    hide ContentOf, Stored;
    if id in s.local {
      SettledStays(s, e, id);
    } else {
      OneTaskMoves(s, e);
      InsertedIsSettled(s, e);
    }
  }

  lemma InsertedIsSettled(s: State, e: Event)
    requires Fresh(s) && Enabled(s, e) && e.Insert?
    ensures Settled(Next(s, e), s.tasks[e.t].u.id)
  {
    hide ContentOf, Stored, Insertable;
  }

  lemma StepKeepsPending(s: State, e: Event)
    requires Fresh(s) && Enabled(s, e)
    ensures var s' := Next(s, e);
      && (forall t :: t in s'.tasks && Pending(s'.tasks[t]) ==> s'.tasks[t].u.id in s'.proposed)
      && (forall t, t' ::
            t in s'.tasks && t' in s'.tasks && t != t' && Pending(s'.tasks[t]) && Pending(s'.tasks[t']) ==>
            s'.tasks[t].u.id != s'.tasks[t'].u.id)
  {
    hide ContentOf, Stored, Settled, DistinctIds, Next;
    var s' := Next(s, e);
    ProposedGrows(s, e);
    OneTaskMoves(s, e);
    TaskMoves(s, e);
    forall t | t in s'.tasks ensures Pending(s'.tasks[t]) ==> s'.tasks[t].u.id in s'.proposed {
    }
    forall t, t' |
      t in s'.tasks && t' in s'.tasks && t != t' && Pending(s'.tasks[t]) && Pending(s'.tasks[t'])
      ensures s'.tasks[t].u.id != s'.tasks[t'].u.id
    {
    }
  }

  lemma ProposedGrows(s: State, e: Event)
    requires Enabled(s, e)
    ensures s.proposed.Keys <= Next(s, e).proposed.Keys
    ensures e.StartPropose? ==> e.u.id in Next(s, e).proposed
  {
    hide ContentOf, Stored;
  }

  lemma {:induction false} RunIsFresh(ss: seq<State>, es: seq<Event>, n: nat)
    requires IsRun(ss, es) && n < |ss|
    ensures Fresh(ss[n])
  {
    if n == 0 {
    } else {
      RunIsFresh(ss, es, n - 1);
      StepKeepsFresh(ss[n - 1], es[n - 1]);
    }
  }
}
