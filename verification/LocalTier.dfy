/** What stays in the local store: units of the local tier only, and without a remote all of them. */
module LocalTier {
  import opened Units
  import opened Store
  import opened DrainProtocol
  import opened FreshIds
  import Scoring

  ghost predicate AreLocal(us: seq<Unit>) {
    forall u :: u in us ==> u.tier == Local
  }

  ghost predicate AllLocal(s: State) {
    && (forall id :: id in s.local ==> s.local[id].tier == Local)
    && (forall t :: t in s.tasks ==> AreLocal(UnitsOf(s.tasks[t])))
  }

  lemma FeedbackKeepsTier(u: Unit, f: Scoring.Feedback)
    ensures Scoring.ApplyFeedback(u, f).tier == u.tier && Stored(u).tier == u.tier
  {
  }

  lemma MovedUnitsAreLocal(s: State, e: Event)
    requires AllLocal(s) && Enabled(s, e)
    ensures e.t in Next(s, e).tasks && AreLocal(UnitsOf(Next(s, e).tasks[e.t]))
  {
    hide ContentOf, Insertable, Updatable, Scoring.ApplyFeedback, Stored;
    if e.Get? && s.tasks[e.t].id in s.local {
      FeedbackKeepsTier(s.local[s.tasks[e.t].id], s.tasks[e.t].feedback);
    }
  }

  lemma StoredUnitsAreLocal(s: State, e: Event)
    requires AllLocal(s) && Enabled(s, e)
    ensures forall id :: id in Next(s, e).local ==> Next(s, e).local[id].tier == Local
  {
    hide ContentOf, Insertable, Updatable, ListingOf, Scoring.ApplyFeedback, Stored;
    if e.Insert? || e.Update? {
      assert s.tasks[e.t].u in UnitsOf(s.tasks[e.t]);
      FeedbackKeepsTier(s.tasks[e.t].u, Scoring.Confirmation(0));
    }
  }

  lemma StepKeepsLocal(s: State, e: Event)
    requires AllLocal(s) && Enabled(s, e)
    ensures AllLocal(Next(s, e))
  {
    hide Next, Enabled, AreLocal;
    OneTaskMoves(s, e);
    MovedUnitsAreLocal(s, e);
    StoredUnitsAreLocal(s, e);
  }

  /** Whatever is proposed is of the local tier, so a store that holds only such units never holds another. */
  lemma {:induction false} StoresLocalOnly(ss: seq<State>, es: seq<Event>, n: nat)
    requires IsRun(ss, es) && n < |ss| && forall id :: id in ss[0].local ==> ss[0].local[id].tier == Local
    ensures AllLocal(ss[n])
  {
    hide Next, Enabled;
    if n > 0 {
      StoresLocalOnly(ss, es, n - 1);
      StepKeepsLocal(ss[n - 1], es[n - 1]);
    }
  }

  /** Nobody talks to a remote. */
  ghost predicate IsOffline(s: State) {
    && !s.hasRemote && s.accepted == []
    && forall t :: t in s.tasks ==> KeepsToTheStore(s.tasks[t])
  }

  predicate KeepsToTheStore(task: Task) {
    task.Inserting? || task.Reading? || task.Updating? || task.Finished?
  }

  lemma StepStaysOffline(s: State, e: Event)
    requires IsOffline(s) && Enabled(s, e)
    ensures IsOffline(Next(s, e)) && s.local.Keys <= Next(s, e).local.Keys
  {
    hide ContentOf, Stored, Insertable, Updatable, ListingOf, Scoring.ApplyFeedback;
    OneTaskMoves(s, e);
  }

  /** Without a remote no unit leaves the store, and nothing is sent anywhere. */
  lemma {:induction false} OfflineKeepsAll(ss: seq<State>, es: seq<Event>, i: nat, n: nat)
    requires IsRun(ss, es) && i <= n < |ss| && !ss[0].hasRemote
    ensures IsOffline(ss[n]) && ss[i].local.Keys <= ss[n].local.Keys
  {
    hide Next, Enabled;
    if n > i {
      OfflineKeepsAll(ss, es, i, n - 1);
      StepStaysOffline(ss[n - 1], es[n - 1]);
    } else if n > 0 {
      OfflineKeepsAll(ss, es, i - 1, n - 1);
      StepStaysOffline(ss[n - 1], es[n - 1]);
    }
  }
}
