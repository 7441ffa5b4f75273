/**
 How often the remote can accept one unit. Drains that overlap, replies that are lost and deletes that fail
 each allow one time more.
 */
module AcceptedOnce {
  import opened Units
  import opened Store
  import opened DrainProtocol
  import opened FreshIds
  import Scoring
  import Sequences

  /** How often `id` was accepted. */
  function Times(accepted: seq<(UnitId, Content)>, id: UnitId): nat {
    if accepted == [] then 0
    else Times(accepted[..|accepted| - 1], id) + (if accepted[|accepted| - 1].0 == id then 1 else 0)
  }

  lemma TimesOfAppend(accepted: seq<(UnitId, Content)>, a: (UnitId, Content), id: UnitId)
    ensures Times(accepted + [a], id) == Times(accepted, id) + (if a.0 == id then 1 else 0)
  {
    assert (accepted + [a])[..|accepted|] == accepted;
  }

  /** The remote accepts the unit in this step. */
  predicate Accepts(s: State, e: Event, id: UnitId)
    requires Enabled(s, e)
  {
    match e
    case CallRemote(t, outcome) => (outcome.Accepted? || outcome.ReplyLost?) && s.tasks[t].u.id == id
    case Push(t, outcome) =>
      var u := s.tasks[t].units[s.tasks[t].next];
      (outcome.Accepted? || outcome.ReplyLost?) && u.tier == Local && u.id == id
    case _ => false
  }

  lemma TimesChange(s: State, e: Event, id: UnitId)
    requires Enabled(s, e)
    ensures Times(Next(s, e).accepted, id) == Times(s.accepted, id) + One(Accepts(s, e, id))
  {
    hide ContentOf, Stored, Insertable, Updatable, Scoring.ApplyFeedback, ListingOf, Times;
    if e.CallRemote? {
      TimesOfAppend(s.accepted, (s.tasks[e.t].u.id, ContentOf(s.tasks[e.t].u)), id);
    } else if e.Push? {
      var u := s.tasks[e.t].units[s.tasks[e.t].next];
      TimesOfAppend(s.accepted, (u.id, ContentOf(u)), id);
    }
  }

  /** The remote accepted the unit and the client does not know, or the client cannot forget it. */
  predicate IsFault(s: State, e: Event, id: UnitId)
    requires Enabled(s, e)
  {
    match e
    case CallRemote(t, outcome) => outcome.ReplyLost? && s.tasks[t].u.id == id
    case Push(t, outcome) =>
      var u := s.tasks[t].units[s.tasks[t].next];
      outcome.ReplyLost? && u.tier == Local && u.id == id
    case Delete(t, fails) => fails && s.tasks[t].units[s.tasks[t].next].id == id
    case _ => false
  }

  /** Only the loss of a reply that accepts the unit, or the failure of its own delete, counts against it. */
  lemma FaultsAreOwn(s: State, e: Event, id: UnitId)
    requires Enabled(s, e)
    ensures e.CallRemote? || e.Push? ==> (IsFault(s, e, id) <==> Accepts(s, e, id) && e.outcome != Accepted)
    ensures e.Delete? ==> (IsFault(s, e, id) <==> e.fails && Deletes(s.tasks[e.t], id))
    ensures IsFault(s, e, id) ==> e.CallRemote? || e.Push? || e.Delete?
  {
  }

  ghost function Faults(ss: seq<State>, es: seq<Event>, id: UnitId, n: nat): nat
    requires IsRun(ss, es) && n < |ss|
  {
    if n == 0 then 0
    else Faults(ss, es, id, n - 1) + (if IsFault(ss[n - 1], es[n - 1], id) then 1 else 0)
  }

  predicate IsDrain(task: Task) {
    task.Listing? || task.Scanning? || task.Deleting?
  }

  /** The units a drain may still push. */
  function Rest(task: Task): seq<Unit> {
    match task
    case Scanning(units, next) => if next <= |units| then units[next..] else []
    case Deleting(units, next) => if next < |units| then units[next + 1..] else []
    case _ => []
  }

  ghost predicate Among(units: seq<Unit>, id: UnitId) {
    exists u :: u in units && u.id == id
  }

  ghost predicate Holds(task: Task, id: UnitId) {
    Among(Rest(task), id)
  }

  predicate Deletes(task: Task, id: UnitId) {
    task.Deleting? && task.next < |task.units| && task.units[task.next].id == id
  }

  function Drains(tasks: map<nat, Task>): set<nat> {
    set t | t in tasks && IsDrain(tasks[t])
  }

  ghost function Holders(tasks: map<nat, Task>, id: UnitId): set<nat> {
    set t | t in tasks && Holds(tasks[t], id)
  }

  function Deleters(tasks: map<nat, Task>, id: UnitId): set<nat> {
    set t | t in tasks && Deletes(tasks[t], id)
  }

  function One(b: bool): nat {
    if b then 1 else 0
  }

  // How the three counts change when one task does.

  lemma MemberChanges(a: set<nat>, t: nat, b: bool)
    ensures |if b then a + {t} else a - {t}| == |a| - One(t in a) + One(b)
  {
  }

  lemma HoldingChanges(tasks: map<nat, Task>, t: nat, task: Task, id: UnitId)
    ensures |Holders(tasks[t := task], id)| ==
            |Holders(tasks, id)| - One(t in tasks && Holds(tasks[t], id)) + One(Holds(task, id))
  {
    hide Holds;
    var a, b := Holders(tasks, id), Holds(task, id);
    MemberChanges(a, t, b);
    assert Holders(tasks[t := task], id) == if b then a + {t} else a - {t};
  }

  lemma DeletingChanges(tasks: map<nat, Task>, t: nat, task: Task, id: UnitId)
    ensures |Deleters(tasks[t := task], id)| ==
            |Deleters(tasks, id)| - One(t in tasks && Deletes(tasks[t], id)) + One(Deletes(task, id))
  {
    hide Deletes;
    var a, b := Deleters(tasks, id), Deletes(task, id);
    MemberChanges(a, t, b);
    assert Deleters(tasks[t := task], id) == if b then a + {t} else a - {t};
  }

  /** No drain both deletes a unit and may push it again. */
  lemma HoldersAndDeleters(s: State, id: UnitId)
    requires Fresh(s)
    ensures |Holders(s.tasks, id)| + |Deleters(s.tasks, id)| <= |Drains(s.tasks)|
  {
    hide Settled;
    var h, d := Holders(s.tasks, id), Deleters(s.tasks, id);
    forall t | t in d ensures t !in h {
      RestIsLater(s.tasks[t], id);
    }
    Sequences.SubsetSize(h + d, Drains(s.tasks));
    assert |h + d| == |h| + |d|;
  }

  lemma RestIsLater(task: Task, id: UnitId)
    requires DistinctIds(Listed(task))
    ensures Deletes(task, id) ==> !Holds(task, id)
  {
  }

  /** How often `id` can still be accepted without a fault, if at most `k` drains run at a time. */
  ghost function Credit(s: State, id: UnitId, k: nat): int {
    if id in s.local || !Settled(s, id) then k - |Deleters(s.tasks, id)| else |Holders(s.tasks, id)|
  }

  /** An id whose Propose is not over is in no drain. */
  lemma UnsettledIsUnlisted(s: State, id: UnitId)
    requires Fresh(s) && !Settled(s, id)
    ensures Holders(s.tasks, id) == {} && Deleters(s.tasks, id) == {} && id !in s.local
  {
    hide Settled;
    forall t | t in s.tasks ensures !Holds(s.tasks[t], id) && !Deletes(s.tasks[t], id) {
      RestIsListed(s.tasks[t], id);
    }
  }

  lemma RestIsListed(task: Task, id: UnitId)
    ensures Holds(task, id) || Deletes(task, id) ==> exists u :: u in Listed(task) && u.id == id
  {
  }

  /** What one event adds to the times accepted and to the credit, for a unit and a bound. */
  ghost predicate Balanced(s: State, e: Event, id: UnitId, k: nat)
    requires Enabled(s, e)
  {
    Times(Next(s, e).accepted, id) + Credit(Next(s, e), id, k)
    <= Times(s.accepted, id) + Credit(s, id, k) + One(IsFault(s, e, id))
  }

  /** Both counts change by what the moving task contributes. */
  lemma CountsChange(s: State, e: Event, id: UnitId)
    requires Enabled(s, e)
    ensures var s' := Next(s, e);
      && e.t in s'.tasks
      && |Holders(s'.tasks, id)| == |Holders(s.tasks, id)|
           - One(e.t in s.tasks && Holds(s.tasks[e.t], id)) + One(Holds(s'.tasks[e.t], id))
      && |Deleters(s'.tasks, id)| == |Deleters(s.tasks, id)|
           - One(e.t in s.tasks && Deletes(s.tasks[e.t], id)) + One(Deletes(s'.tasks[e.t], id))
  {
    hide Next, Holds, Deletes, Holders, Deleters;
    OneTaskMoves(s, e);
    HoldingChanges(s.tasks, e.t, Next(s, e).tasks[e.t], id);
    DeletingChanges(s.tasks, e.t, Next(s, e).tasks[e.t], id);
  }

  /** Only a Propose settles an id or takes one up. */
  lemma SettledSame(s: State, e: Event, id: UnitId)
    requires Enabled(s, e) && !e.StartPropose? && !e.CallRemote? && !e.Insert?
    ensures Settled(Next(s, e), id) == Settled(s, id)
    ensures Next(s, e).local.Keys == s.local.Keys || e.Delete?
  {
    hide Stored, ListingOf, ContentOf, Scoring.ApplyFeedback;
    OneTaskMoves(s, e);
    if !Settled(s, id) && id in s.proposed {
      var t :| t in s.tasks && Pending(s.tasks[t]) && s.tasks[t].u.id == id;
      assert t in Next(s, e).tasks;
    }
    if Settled(s, id) {
      SettledStays(s, e, id);
    }
  }

  lemma QuietIsBalanced(s: State, e: Event, id: UnitId, k: nat)
    requires Fresh(s) && Enabled(s, e)
    requires e.StartFeedback? || e.StartDrain? || e.Get? || e.Update? || e.Stop? || e.List?
    ensures Balanced(s, e, id, k)
  {
    hide Fresh, Holders, Deleters, Settled, Stored, Updatable, Scoring.ApplyFeedback, ListingOf, ContentOf;
    CountsChange(s, e, id);
    SettledSame(s, e, id);
    if e.List? && !e.fails {
      ListedIsLocal(s, e, id);
    }
  }

  lemma ListedIsLocal(s: State, e: Event, id: UnitId)
    requires Enabled(s, e) && e.List?
    ensures Holds(Scanning(e.listed, 0), id) ==> id in s.local
  {
  }

  lemma RestOfNext(units: seq<Unit>, next: nat, id: UnitId)
    requires next < |units| && DistinctIds(units)
    ensures Holds(Scanning(units, next), id) <==> units[next].id == id || Holds(Scanning(units, next + 1), id)
    ensures Holds(Deleting(units, next), id) <==> Holds(Scanning(units, next + 1), id)
    ensures units[next].id == id ==> !Holds(Scanning(units, next + 1), id)
  {
    hide DistinctIds, Among;
    assert units[next..] == [units[next]] + units[next + 1..];
    AmongCons(units[next], units[next + 1..], id);
    LaterIdsDiffer(units, next);
  }

  lemma AmongCons(u: Unit, rest: seq<Unit>, id: UnitId)
    ensures Among([u] + rest, id) <==> u.id == id || Among(rest, id)
  {
    if u.id == id {
      assert u in [u] + rest;
    }
  }

  lemma LaterIdsDiffer(units: seq<Unit>, next: nat)
    requires next < |units| && DistinctIds(units)
    ensures !Among(units[next + 1..], units[next].id)
  {
  }

  lemma PushIsBalanced(s: State, e: Event, id: UnitId, k: nat)
    requires Fresh(s) && Enabled(s, e) && e.Push?
    ensures Balanced(s, e, id, k)
  {
    hide Holders, Deleters, Settled, ContentOf, Holds, DistinctIds, Times;
    var units, next := s.tasks[e.t].units, s.tasks[e.t].next;
    assert DistinctIds(Listed(s.tasks[e.t]));
    CountsChange(s, e, id);
    SettledSame(s, e, id);
    RestOfNext(units, next, id);
    TimesChange(s, e, id);
    assert units[next] in Listed(s.tasks[e.t]);
  }

  lemma DeleteIsBalanced(s: State, e: Event, id: UnitId, k: nat)
    requires Fresh(s) && Enabled(s, e) && e.Delete? && |Drains(s.tasks)| <= k
    ensures Balanced(s, e, id, k)
  {
    hide Holders, Deleters, Settled, ContentOf, Holds, DistinctIds, Drains;
    var units, next := s.tasks[e.t].units, s.tasks[e.t].next;
    assert DistinctIds(Listed(s.tasks[e.t]));
    CountsChange(s, e, id);
    SettledSame(s, e, id);
    RestOfNext(units, next, id);
    HoldersAndDeleters(s, id);
    assert units[next] in Listed(s.tasks[e.t]);
  }

  /** A Propose takes an id up, and keeps the whole credit of the id until it is over. */
  lemma ProposeIsBalanced(s: State, e: Event, id: UnitId, k: nat)
    requires Fresh(s) && Enabled(s, e) && (e.StartPropose? || e.CallRemote? || e.Insert?) && k > 0
    ensures Balanced(s, e, id, k)
  {
    hide Holders, Deleters, Settled, ContentOf, Fresh, Stored, Insertable, Times;
    CountsChange(s, e, id);
    TimesChange(s, e, id);
    var u := if e.StartPropose? then e.u else s.tasks[e.t].u;
    if id == u.id {
      ProposedIsUnsettled(s, e);
      UnsettledIsUnlisted(s, id);
      if e.CallRemote? && e.outcome.Accepted? {
        AcceptedIsSettled(s, e);
      }
    } else {
      OthersSettledSame(s, e, u, id);
    }
  }

  lemma ProposedIsUnsettled(s: State, e: Event)
    requires Enabled(s, e) && (e.StartPropose? || e.CallRemote? || e.Insert?)
    ensures !Settled(s, if e.StartPropose? then e.u.id else s.tasks[e.t].u.id)
    ensures e.StartPropose? || (e.CallRemote? && !e.outcome.Accepted? && !e.outcome.Rejected?) ==>
              !Settled(Next(s, e), if e.StartPropose? then e.u.id else s.tasks[e.t].u.id)
  {
    hide ContentOf;
    OneTaskMoves(s, e);
  }

  lemma AcceptedIsSettled(s: State, e: Event)
    requires Fresh(s) && Enabled(s, e) && e.CallRemote? && e.outcome.Accepted?
    ensures Settled(Next(s, e), s.tasks[e.t].u.id)
  {
    hide ContentOf;
  }

  lemma OthersSettledSame(s: State, e: Event, u: Unit, id: UnitId)
    requires Enabled(s, e) && (e.StartPropose? || e.CallRemote? || e.Insert?) && id != u.id
    requires u == if e.StartPropose? then e.u else s.tasks[e.t].u
    ensures Settled(Next(s, e), id) == Settled(s, id)
    ensures id in Next(s, e).local <==> id in s.local
  {
    hide ContentOf, Stored, Insertable;
    OneTaskMoves(s, e);
    if !Settled(s, id) && id in s.proposed {
      var t :| t in s.tasks && Pending(s.tasks[t]) && s.tasks[t].u.id == id;
      assert t != e.t && t in Next(s, e).tasks;
    }
    if Settled(s, id) {
      SettledStays(s, e, id);
    }
  }

  lemma StepIsBalanced(s: State, e: Event, id: UnitId, k: nat)
    requires Fresh(s) && Enabled(s, e) && |Drains(s.tasks)| <= k && k > 0
    ensures Balanced(s, e, id, k)
  {
    hide Fresh, Balanced, Drains, Enabled;
    match e {
      case StartPropose(_, _) => ProposeIsBalanced(s, e, id, k);
      case CallRemote(_, _) => ProposeIsBalanced(s, e, id, k);
      case Insert(_, _) => ProposeIsBalanced(s, e, id, k);
      case Push(_, _) => PushIsBalanced(s, e, id, k);
      case Delete(_, _) => DeleteIsBalanced(s, e, id, k);
      case _ => QuietIsBalanced(s, e, id, k);
    }
  }

  /** At most `k` drains run at a time. */
  ghost predicate WithDrains(ss: seq<State>, k: nat) {
    forall i :: 0 <= i < |ss| ==> |Drains(ss[i].tasks)| <= k
  }

  lemma {:induction false} RunIsBalanced(ss: seq<State>, es: seq<Event>, id: UnitId, k: nat, n: nat)
    requires IsRun(ss, es) && WithDrains(ss, k) && k > 0 && n < |ss|
    ensures Times(ss[n].accepted, id) + Credit(ss[n], id, k) <= k + Faults(ss, es, id, n)
  {
    hide Settled, Next, Drains;
    if n == 0 {
      NobodyDeletes(ss[0], id);
    } else {
      RunIsBalanced(ss, es, id, k, n - 1);
      RunIsFresh(ss, es, n - 1);
      StepIsBalanced(ss[n - 1], es[n - 1], id, k);
    }
  }

  lemma NobodyDeletes(s: State, id: UnitId)
    requires Init(s)
    ensures Deleters(s.tasks, id) == {} && Holders(s.tasks, id) == {}
  {
  }

  /**
   With at most `k` drains at a time the remote accepts a unit at most `k` times, and once more for every reply
   that is lost and every delete that fails.
   */
  lemma AcceptedAtMost(ss: seq<State>, es: seq<Event>, id: UnitId, k: nat, n: nat)
    requires IsRun(ss, es) && WithDrains(ss, k) && k > 0 && n < |ss|
    ensures Times(ss[n].accepted, id) <= k + Faults(ss, es, id, n)
  {
    hide Drains, Settled;
    RunIsBalanced(ss, es, id, k, n);
    RunIsFresh(ss, es, n);
    HoldersAndDeleters(ss[n], id);
  }

  /** Without faults and overlapping drains, a unit whose Propose succeeded and that is gone was accepted once. */
  lemma ExactlyOnce(ss: seq<State>, es: seq<Event>, id: UnitId, n: nat)
    requires IsRun(ss, es) && WithDrains(ss, 1) && n < |ss|
    requires Faults(ss, es, id, n) == 0
    requires id in ss[n].kept && id !in ss[n].local
    ensures Times(ss[n].accepted, id) == 1
  {
    hide IsRun, WithDrains, Faults, ContentOf;
    AcceptedAtMost(ss, es, id, 1, n);
    NothingLost(ss, es, n);
    MemberCounts(ss[n].accepted, (id, ss[n].proposed[id]));
  }

  lemma {:induction false} MemberCounts(accepted: seq<(UnitId, Content)>, a: (UnitId, Content))
    requires a in accepted
    ensures Times(accepted, a.0) >= 1
  {
    if accepted[|accepted| - 1] != a {
      MemberCounts(accepted[..|accepted| - 1], a);
    }
  }

  // ---- The bound is reached ----

  lemma DrainsChange(tasks: map<nat, Task>, t: nat, task: Task)
    ensures |Drains(tasks[t := task])| == |Drains(tasks)| - One(t in tasks && IsDrain(tasks[t])) + One(IsDrain(task))
  {
    hide IsDrain;
    var a, b := Drains(tasks), IsDrain(task);
    MemberChanges(a, t, b);
    assert Drains(tasks[t := task]) == if b then a + {t} else a - {t};
  }

  lemma {:induction false} FaultsOfPrefix(
    ss: seq<State>, es: seq<Event>, ss': seq<State>, es': seq<Event>, id: UnitId, n: nat)
    requires IsRun(ss, es) && IsRun(ss', es') && n < |ss| <= |ss'|
    requires ss'[..|ss|] == ss && es'[..|es|] == es
    ensures Faults(ss, es, id, n) == Faults(ss', es', id, n)
  {
    hide Next, Enabled, IsFault;
    if n == 0 {
    } else {
      FaultsOfPrefix(ss, es, ss', es', id, n - 1);
      assert ss[n - 1] == ss'[..|ss|][n - 1] && es[n - 1] == es'[..|es|][n - 1];
    }
  }

  lemma Extended(ss: seq<State>, es: seq<Event>, e: Event, id: UnitId, k: nat)
    returns (ss': seq<State>, es': seq<Event>)
    requires IsRun(ss, es) && WithDrains(ss, k) && Enabled(ss[|es|], e)
    requires var tasks := ss[|es|].tasks; (e.t in tasks && IsDrain(tasks[e.t])) || |Drains(tasks)| < k
    ensures IsRun(ss', es') && WithDrains(ss', k) && |ss'| == |es'| + 1
    ensures ss'[|es'|] == Next(ss[|es|], e)
    ensures Faults(ss', es', id, |es'|) == Faults(ss, es, id, |es|) + One(IsFault(ss[|es|], e, id))
  {
    hide Next, Enabled, IsFault, Drains, Init;
    OneTaskMoves(ss[|es|], e);
    DrainsChange(ss[|es|].tasks, e.t, Next(ss[|es|], e).tasks[e.t]);
    ss', es' := ss + [Next(ss[|es|], e)], es + [e];
    assert ss'[..|ss|] == ss && es'[..|es|] == es;
    FaultsOfPrefix(ss, es, ss', es', id, |es|);
  }

  /** One more drain that pushes the only unit, and either loses the reply or stops short of the delete. */
  lemma Round(ss: seq<State>, es: seq<Event>, u: Unit, t: nat, lost: bool, k: nat)
    returns (ss': seq<State>, es': seq<Event>)
    requires IsRun(ss, es) && WithDrains(ss, k) && |ss| == |es| + 1
    requires var s := ss[|es|];
      && s.hasRemote && t !in s.tasks && s.local == map[u.id := u] && u.tier == Local
      && |Drains(s.tasks)| < k
    ensures IsRun(ss', es') && WithDrains(ss', k) && |ss'| == |es'| + 1
    ensures var s := ss[|es|];
      ss'[|es'|] == s.(tasks := s.tasks[t := if lost then Finished else Deleting([u], 0)],
                       accepted := s.accepted + [(u.id, ContentOf(u))])
    ensures Faults(ss', es', u.id, |es'|) == Faults(ss, es, u.id, |es|) + One(lost)
  {
    hide IsRun, WithDrains, ContentOf, Drains, Faults, ListingOf;
    var s := ss[|es|];
    ss', es' := Extended(ss, es, StartDrain(t), u.id, k);
    OnlyUnitIsListing(u);
    ss', es' := Extended(ss', es', List(t, [u], false), u.id, k);
    ss', es' := Extended(ss', es', Push(t, if lost then ReplyLost else Accepted), u.id, k);
    if lost {
      ss', es' := Extended(ss', es', Stop(t), u.id, k);
    }
    assert ss'[|es'|].tasks == s.tasks[t := if lost then Finished else Deleting([u], 0)];
  }

  lemma OnlyUnitIsListing(u: Unit)
    ensures ListingOf([u], map[u.id := u])
  {
  }

  /** `n` drains, the first `f` of which lose their reply. */
  lemma {:induction false} Rounds(u: Unit, n: nat, f: nat, k: nat) returns (ss: seq<State>, es: seq<Event>)
    requires u.tier == Local && UnitsOk(map[u.id := u]) && n <= k + f && k > 0
    ensures IsRun(ss, es) && WithDrains(ss, k) && |ss| == |es| + 1
    ensures var s := ss[|es|];
      && s.hasRemote && s.local == map[u.id := u]
      && (forall t :: t in s.tasks ==> t < n)
      && |Drains(s.tasks)| == (if n <= f then 0 else n - f)
      && Times(s.accepted, u.id) == n
    ensures Faults(ss, es, u.id, |es|) == (if n <= f then n else f)
  {
    hide Drains, Faults, ContentOf, Times, UnitsOk, Next, Enabled;
    if n == 0 {
      var local := map[u.id := u];
      var proposed := map id | id in local :: ContentOf(local[id]);
      var s := State(true, local, [], map[], proposed, local.Keys);
      ss, es := [s], [];
      StartIsQuiet(ss, es, u.id, k);
    } else {
      ss, es := Rounds(u, n - 1, f, k);
      var s := ss[|es|];
      ss, es := Round(ss, es, u, n - 1, n <= f, k);
      DrainsChange(s.tasks, n - 1, if n <= f then Finished else Deleting([u], 0));
      TimesOfAppend(s.accepted, (u.id, ContentOf(u)), u.id);
    }
  }

  lemma StartIsQuiet(ss: seq<State>, es: seq<Event>, id: UnitId, k: nat)
    requires |ss| == 1 && es == [] && Init(ss[0])
    ensures IsRun(ss, es) && WithDrains(ss, k) && Faults(ss, es, id, 0) == 0 && |Drains(ss[0].tasks)| == 0
    ensures Times(ss[0].accepted, id) == 0
  {
    assert Drains(ss[0].tasks) == {};
  }

  /** Some run with at most `k` drains at a time and `f` faults for the unit has it accepted so often. */
  ghost predicate IsAccepted(times: nat, id: UnitId, k: nat, f: nat) {
    exists ss: seq<State>, es: seq<Event>, n: nat ::
      IsRun(ss, es) && WithDrains(ss, k) && n < |ss| && Faults(ss, es, id, n) == f
      && Times(ss[n].accepted, id) == times
  }

  /** The most a unit can be accepted is once for each drain running at a time and each fault, exactly. */
  lemma MostIsAccepted(u: Unit, k: nat, f: nat)
    requires u.tier == Local && UnitsOk(map[u.id := u]) && k > 0
    ensures IsAccepted(k + f, u.id, k, f)
    ensures forall times: nat :: IsAccepted(times, u.id, k, f) ==> times <= k + f
  {
    hide IsRun, WithDrains, Faults, UnitsOk;
    var ss, es := Rounds(u, k + f, f, k);
    forall times: nat | IsAccepted(times, u.id, k, f) ensures times <= k + f {
      var ss: seq<State>, es: seq<Event>, n: nat :|
        && IsRun(ss, es) && WithDrains(ss, k) && n < |ss| && Faults(ss, es, u.id, n) == f
        && Times(ss[n].accepted, u.id) == times;
      AcceptedAtMost(ss, es, u.id, k, n);
    }
  }
}
