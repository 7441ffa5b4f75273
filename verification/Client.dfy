/** The client operations, run one at a time against the store and a remote whose answers are arbitrary. */
module Client {
  import opened Prelude
  import opened Units
  import opened Store
  import opened DrainProtocol
  import Scoring
  import Sequences

  datatype ProposeResult =
    | AcceptedRemotely
    | StoredLocally(u: Unit)
    | FallenBack(u: Unit)
    | Refused
    | InsertFailed(error: StoreError)

  datatype DrainResult = DrainResult(pushed: nat, warnings: nat)

  datatype FeedbackError = Unknown | Storage(error: StoreError)

  ghost function Drainable(units: map<UnitId, Unit>): set<UnitId> {
    set id | id in units && units[id].tier == Local
  }

  /** The ids of the first `n` listed units that are of the local tier. */
  ghost function LocalIds(us: seq<Unit>, n: nat): set<UnitId>
    requires n <= |us|
  {
    if n == 0 then {}
    else if us[n - 1].tier == Local then LocalIds(us, n - 1) + {us[n - 1].id}
    else LocalIds(us, n - 1)
  }

  lemma {:induction false} LocalIdsIn(us: seq<Unit>, n: nat)
    requires n <= |us|
    ensures forall id :: id in LocalIds(us, n) <==> exists k :: 0 <= k < n && us[k].tier == Local && us[k].id == id
  {
    if n == 0 {
    } else {
      LocalIdsIn(us, n - 1);
    }
  }

  lemma LocalIdsFresh(us: seq<Unit>, n: nat)
    requires n < |us| && forall i, j :: 0 <= i < j < |us| ==> us[i].id != us[j].id
    ensures us[n].id !in LocalIds(us, n)
    ensures us[n].tier == Local ==>
      LocalIds(us, n + 1) == LocalIds(us, n) + {us[n].id} && |LocalIds(us, n + 1)| == |LocalIds(us, n)| + 1
    ensures us[n].tier != Local ==> LocalIds(us, n + 1) == LocalIds(us, n)
  {
    LocalIdsIn(us, n);
  }

  lemma ListingDrainable(us: seq<Unit>, units: map<UnitId, Unit>)
    requires ListingOf(us, units) && UnitsOk(units)
    ensures LocalIds(us, |us|) == Drainable(units)
  {
    LocalIdsIn(us, |us|);
    forall id | id in Drainable(units) ensures id in LocalIds(us, |us|) {
      assert units[id] in us;
    }
    forall id | id in LocalIds(us, |us|) ensures id in Drainable(units) {
      var k :| 0 <= k < |us| && us[k].tier == Local && us[k].id == id;
      assert us[k] in us;
    }
  }

  /** What a drain has done: `units0` became `units` and `log` was accepted. */
  ghost predicate Drained(units0: map<UnitId, Unit>, units: map<UnitId, Unit>, log: seq<(UnitId, Content)>) {
    && (forall id :: id in units ==> id in units0 && units[id] == units0[id])
    && (forall id :: id in units0 && id !in units ==>
          units0[id].tier == Local && (id, ContentOf(units0[id])) in log)
    && (forall a :: a in log ==> a.0 in units0 && a.1 == ContentOf(units0[a.0]))
  }

  // ---- What one operation does, for the methods below and for the protocol ----

  /** The remote takes the unit for two of the five outcomes. */
  function Sent(u: Unit, outcome: Outcome): seq<(UnitId, Content)> {
    if outcome.Accepted? || outcome.ReplyLost? then [(u.id, ContentOf(u))] else []
  }

  /** Propose writes to the store unless the remote has settled the matter. */
  predicate Stores(hasRemote: bool, outcome: Outcome) {
    !hasRemote || !(outcome.Accepted? || outcome.Rejected?)
  }

  /** The unit with its observation times set. */
  function Observed(u: Unit, now: Time): Unit {
    u.(evidence := u.evidence.(firstObserved := Some(now), lastConfirmed := Some(now)))
  }

  function ProposedUnits(
    units: map<UnitId, Unit>, u: Unit, hasRemote: bool, outcome: Outcome, fails: bool): map<UnitId, Unit>
  {
    if Stores(hasRemote, outcome) && !fails && Insertable(units, u) then units[u.id := Stored(u)] else units
  }

  function FeedbackUnits(
    units: map<UnitId, Unit>, id: UnitId, feedback: Scoring.Feedback, fails: bool): map<UnitId, Unit>
  {
    if id in units && !fails then units[id := Scoring.ApplyFeedback(units[id], feedback)] else units
  }

  predicate DeleteFails(fault: int) {
    0 <= fault <= 3
  }

  /** What the remote took of the first `n` listed units: every local one was pushed, whatever became of the others. */
  function SentUpTo(us: seq<Unit>, outcomes: nat -> Outcome, n: nat): seq<(UnitId, Content)>
    requires n <= |us|
  {
    if n == 0 then []
    else SentUpTo(us, outcomes, n - 1) + (if us[n - 1].tier == Local then Sent(us[n - 1], outcomes(n - 1)) else [])
  }

  /** Of the first `n` listed units, the local ones that were accepted and whose delete worked. */
  function GoneUpTo(us: seq<Unit>, outcomes: nat -> Outcome, faults: nat -> int, n: nat): set<UnitId>
    requires n <= |us|
  {
    if n == 0 then {}
    else GoneUpTo(us, outcomes, faults, n - 1)
         + (if us[n - 1].tier == Local && outcomes(n - 1).Accepted? && !DeleteFails(faults(n - 1))
            then {us[n - 1].id} else {})
  }

  lemma OneMoreReached(
    units: map<UnitId, Unit>, us: seq<Unit>, outcomes: nat -> Outcome, faults: nat -> int, n: nat)
    requires n < |us|
    ensures SentUpTo(us, outcomes, n + 1) ==
            if us[n].tier == Local then SentUpTo(us, outcomes, n) + Sent(us[n], outcomes(n))
            else SentUpTo(us, outcomes, n)
    ensures Left(units, us, outcomes, faults, n + 1) ==
            if us[n].tier == Local && outcomes(n).Accepted? && !DeleteFails(faults(n))
            then Left(units, us, outcomes, faults, n) - {us[n].id} else Left(units, us, outcomes, faults, n)
  {
    hide ContentOf, DeleteFails;
    assert SentUpTo(us, outcomes, n) + [] == SentUpTo(us, outcomes, n);
    assert GoneUpTo(us, outcomes, faults, n) + {} == GoneUpTo(us, outcomes, faults, n);
  }

  lemma NothingReached(units: map<UnitId, Unit>, us: seq<Unit>, outcomes: nat -> Outcome, faults: nat -> int)
    ensures SentUpTo(us, outcomes, 0) == [] && Left(units, us, outcomes, faults, 0) == units
  {
  }

  /** How many of the listed units a drain gets to before its context expires. */
  function Reached(us: seq<Unit>, deadline: Option<nat>): (n: nat)
    ensures n <= |us|
  {
    if deadline.Some? && deadline.value < |us| then deadline.value else |us|
  }

  /** A unit is gone after a drain exactly when its own push was accepted and its own delete worked. */
  lemma {:induction false} GoneExactly(us: seq<Unit>, outcomes: nat -> Outcome, faults: nat -> int, n: nat, i: nat)
    requires n <= |us| && i < |us| && forall j, k :: 0 <= j < k < |us| ==> us[j].id != us[k].id
    ensures us[i].id in GoneUpTo(us, outcomes, faults, n) <==>
            i < n && us[i].tier == Local && outcomes(i).Accepted? && !DeleteFails(faults(i))
  {
    hide DeleteFails;
    if n == 0 {
    } else {
      GoneExactly(us, outcomes, faults, n - 1, i);
    }
  }

  lemma {:induction false} GoneAreLocal(
    us: seq<Unit>, outcomes: nat -> Outcome, faults: nat -> int, n: nat, id: UnitId)
    requires n <= |us| && id in GoneUpTo(us, outcomes, faults, n)
    ensures exists i ::
      0 <= i < n && us[i].id == id && us[i].tier == Local && (id, ContentOf(us[i])) in SentUpTo(us, outcomes, n)
  {
    hide ContentOf, DeleteFails;
    if id in GoneUpTo(us, outcomes, faults, n - 1) {
      GoneAreLocal(us, outcomes, faults, n - 1, id);
      var i :| 0 <= i < n - 1 && us[i].id == id && us[i].tier == Local
               && (id, ContentOf(us[i])) in SentUpTo(us, outcomes, n - 1);
      assert (id, ContentOf(us[i])) in SentUpTo(us, outcomes, n);
    } else {
      assert us[n - 1].id == id && (id, ContentOf(us[n - 1])) in SentUpTo(us, outcomes, n);
    }
  }

  lemma {:induction false} SentAreListed(us: seq<Unit>, outcomes: nat -> Outcome, n: nat, a: (UnitId, Content))
    requires n <= |us| && a in SentUpTo(us, outcomes, n)
    ensures exists i :: 0 <= i < n && a == (us[i].id, ContentOf(us[i]))
  {
    hide ContentOf;
    if n > 0 && a in SentUpTo(us, outcomes, n - 1) {
      SentAreListed(us, outcomes, n - 1, a);
    }
  }

  /** The pushes and deletes of a drain take nothing but local units that the remote accepted. */
  lemma GoneIsDrained(
    us: seq<Unit>, units: map<UnitId, Unit>, outcomes: nat -> Outcome, faults: nat -> int, n: nat)
    requires ListingOf(us, units) && UnitsOk(units) && n <= |us|
    ensures Drained(units, Left(units, us, outcomes, faults, n), SentUpTo(us, outcomes, n))
  {
    hide ContentOf, GoneUpTo, SentUpTo;
    var gone := GoneUpTo(us, outcomes, faults, n);
    forall id | id in gone
      ensures id in units && units[id].tier == Local && (id, ContentOf(units[id])) in SentUpTo(us, outcomes, n)
    {
      GoneAreLocal(us, outcomes, faults, n, id);
      var i :| 0 <= i < n && us[i].id == id && us[i].tier == Local
               && (id, ContentOf(us[i])) in SentUpTo(us, outcomes, n);
      assert us[i] in us;
    }
    forall a | a in SentUpTo(us, outcomes, n) ensures a.0 in units && a.1 == ContentOf(units[a.0]) {
      SentAreListed(us, outcomes, n, a);
      var i :| 0 <= i < n && a == (us[i].id, ContentOf(us[i]));
      assert us[i] in us;
    }
  }

  lemma NothingCounted(us: seq<Unit>, outcomes: nat -> Outcome, faults: nat -> int)
    ensures GoneCount(us, outcomes, faults, 0) == LocalCount(us, 0) == 0
  {
  }

  lemma GoneSize(us: seq<Unit>, units: map<UnitId, Unit>, outcomes: nat -> Outcome, faults: nat -> int, n: nat)
    requires ListingOf(us, units) && n <= |us|
    ensures |Left(units, us, outcomes, faults, n)| == |units| - GoneCount(us, outcomes, faults, n)
  {
    hide ContentOf, GoneUpTo, SentUpTo;
    var gone := GoneUpTo(us, outcomes, faults, n);
    forall id | id in gone ensures id in units {
      GoneAreLocal(us, outcomes, faults, n, id);
      var i :| 0 <= i < n && us[i].id == id;
      assert us[i] in us;
    }
    assert (units - gone).Keys == units.Keys - gone && gone <= units.Keys;
    assert |units - gone| == |units.Keys - gone|;
  }

  lemma {:induction false} AllGoodTakesAll(us: seq<Unit>, outcomes: nat -> Outcome, faults: nat -> int, n: nat)
    requires n <= |us| && AllGood(outcomes, faults)
    ensures GoneUpTo(us, outcomes, faults, n) == LocalIds(us, n)
    ensures GoneCount(us, outcomes, faults, n) == LocalCount(us, n)
  {
    hide DeleteFails;
    if n == 0 {
    } else {
      AllGoodTakesAll(us, outcomes, faults, n - 1);
    }
  }

  function GoneCount(us: seq<Unit>, outcomes: nat -> Outcome, faults: nat -> int, n: nat): nat
    requires n <= |us|
  {
    |GoneUpTo(us, outcomes, faults, n)|
  }

  ghost function LocalCount(us: seq<Unit>, n: nat): nat
    requires n <= |us|
  {
    |LocalIds(us, n)|
  }

  /** What a drain has left of the store after `n` listed units. */
  function Left(units: map<UnitId, Unit>, us: seq<Unit>, outcomes: nat -> Outcome, faults: nat -> int, n: nat)
    : map<UnitId, Unit>
    requires n <= |us|
  {
    units - GoneUpTo(us, outcomes, faults, n)
  }

  /** One push or one warning for the next local unit. */
  lemma CountOneMore(
    us: seq<Unit>, units: map<UnitId, Unit>, outcomes: nat -> Outcome, faults: nat -> int, n: nat)
    requires ListingOf(us, units) && n < |us|
    ensures us[n].id in Left(units, us, outcomes, faults, n)
    ensures LocalCount(us, n + 1) == LocalCount(us, n) + (if us[n].tier == Local then 1 else 0)
    ensures GoneCount(us, outcomes, faults, n + 1) == GoneCount(us, outcomes, faults, n)
              + (if us[n].tier == Local && outcomes(n).Accepted? && !DeleteFails(faults(n)) then 1 else 0)
  {
    hide DeleteFails;
    assert us[n] in us;
    assert forall i, j :: 0 <= i < j < |us| ==> us[i].id != us[j].id;
    LocalIdsFresh(us, n);
    GoneExactly(us, outcomes, faults, n, n);
    assert GoneUpTo(us, outcomes, faults, n) + {} == GoneUpTo(us, outcomes, faults, n);
  }

  /** Every push is accepted and no statement of a delete fails. */
  ghost predicate AllGood(outcomes: nat -> Outcome, faults: nat -> int) {
    && (forall i :: outcomes(i).Accepted?)
    && (forall i :: !DeleteFails(faults(i)))
  }

  method CountLocal(us: seq<Unit>) returns (count: nat)
    requires forall i, j :: 0 <= i < j < |us| ==> us[i].id != us[j].id
    ensures count == |LocalIds(us, |us|)|
  {
    count := 0;
    for i := 0 to |us|
      invariant count == |LocalIds(us, i)|
    {
      LocalIdsFresh(us, i);
      if us[i].tier == Local {
        count := count + 1;
      }
    }
  }

  class Client {
    const store: LocalStore
    const hasRemote: bool
    var accepted: seq<(UnitId, Content)>

    constructor (store: LocalStore, hasRemote: bool)
      ensures this.store == store && this.hasRemote == hasRemote && accepted == []
    {
      this.store, this.hasRemote, accepted := store, hasRemote, [];
    }

    method RemotePropose(u: Unit, outcome: Outcome)
      modifies `accepted
      ensures accepted == old(accepted) + Sent(u, outcome)
    {
      if outcome.Accepted? || outcome.ReplyLost? {
        accepted := accepted + [(u.id, ContentOf(u))];
      }
    }

    /** `u` is the unit built from the parameters, before its observation times are set. */
    method Propose(u: Unit, outcome: Outcome, now: Time, fault: int) returns (r: ProposeResult)
      requires store.Coherent() && u.tier == Local
      modifies this`accepted, store
      ensures store.Coherent()
      ensures r.AcceptedRemotely? <==> hasRemote && outcome.Accepted?
      ensures r.Refused? <==> hasRemote && outcome.Rejected?
      ensures var works := !old(store.closed) && Insertable(old(store.units), u)
                           && !(0 <= fault <= |Normalized(u.domains)| + 3);
        && (r.FallenBack? <==> hasRemote && Stores(hasRemote, outcome) && works)
        && (r.StoredLocally? <==> !hasRemote && works)
        && (r.InsertFailed? <==> Stores(hasRemote, outcome) && !works)
      ensures r.StoredLocally? || r.FallenBack? ==>
        r.u == Observed(u, now) && store.units == old(store.units)[u.id := Stored(r.u)]
      ensures r.StoredLocally? || r.FallenBack? ==>
        store.units[u.id] == u.(domains := Normalized(u.domains),
                                evidence := u.evidence.(firstObserved := Some(now), lastConfirmed := Some(now)))
      ensures r.AcceptedRemotely? || r.Refused? || r.InsertFailed? ==> store.units == old(store.units)
      ensures store.units == ProposedUnits(
                old(store.units), Observed(u, now), hasRemote, outcome,
                old(store.closed) || 0 <= fault <= |Normalized(u.domains)| + 3)
      ensures r.InsertFailed? ==>
        && (r.error == Closed <==> old(store.closed))
        && (r.error == NoDomains <==> !old(store.closed) && Normalized(u.domains) == [])
        && (r.error == AlreadyExists <==>
              !old(store.closed) && Normalized(u.domains) != [] && fault != 0 && fault != 1
              && u.id in old(store.units))
      ensures accepted == old(accepted) + (if hasRemote then Sent(u, outcome) else [])
    {
      if hasRemote {
        RemotePropose(u, outcome);
        if outcome.Accepted? {
          return AcceptedRemotely;
        }
        if outcome.Rejected? {
          return Refused;
        }
      }
      var ku := Observed(u, now);
      var inserted := store.Insert(ku, fault);
      if inserted.Err? {
        return InsertFailed(inserted.error);
      }
      return if hasRemote then FallenBack(ku) else StoredLocally(ku);
    }

    /** Confirm and Flag on a unit of the local tier: read, then write back. */
    method GiveFeedback(id: UnitId, feedback: Scoring.Feedback, fault: int) returns (r: Result<Unit, FeedbackError>)
      requires store.Coherent()
      modifies store
      ensures store.Coherent()
      ensures r.Ok? <==> !old(store.closed) && id in old(store.units)
                         && !(0 <= fault <= |old(store.units)[id].domains| + 5)
      ensures r.Ok? ==> r.value == Scoring.ApplyFeedback(old(store.units)[id], feedback)
      ensures store.units == FeedbackUnits(old(store.units), id, feedback, !r.Ok?)
      ensures r == Err(Unknown) <==> !old(store.closed) && id !in old(store.units)
      ensures r == Err(Storage(Closed)) <==> old(store.closed)
    {
      var found := store.Get(id);
      if found.Err? {
        return Err(Storage(found.error));
      }
      if found.value.None? {
        return Err(Unknown);
      }
      var updated := Scoring.ApplyFeedback(found.value.value, feedback);
      NormalizedFixed(updated.domains);
      var written := store.Update(updated, fault);
      if written.Err? {
        return Err(Storage(written.error));
      }
      return Ok(updated);
    }

    method DrainableCount() returns (r: Result<nat, StoreError>)
      requires store.Coherent()
      ensures store.closed ==> r == Err(Closed)
      ensures !store.closed ==> r == Ok(|Drainable(store.units)|)
    {
      var all := store.All();
      if all.Err? {
        return Err(all.error);
      }
      var us := all.value;
      var count := CountLocal(us);
      ListingDrainable(us, store.units);
      return Ok(count);
    }

    /** Pushes unit `u` and forgets it locally; tells whether it counts as pushed or as a warning. */
    method PushOne(u: Unit, outcome: Outcome, fault: int) returns (pushed: bool)
      requires store.Coherent() && u.id in store.units
      modifies this`accepted, store
      ensures store.Coherent() && store.closed == old(store.closed)
      ensures pushed <==> outcome.Accepted? && !store.closed && !DeleteFails(fault)
      ensures store.units == if pushed then old(store.units) - {u.id} else old(store.units)
      ensures accepted == old(accepted) + Sent(u, outcome)
    {
      RemotePropose(u, outcome);
      if !outcome.Accepted? {
        return false;
      }
      var deleted := store.Delete(u.id, fault);
      return deleted.Ok?;
    }

    /** One turn of that loop: what it adds to the two counts. */
    method HandleOne(
      us: seq<Unit>, i: nat, outcomes: nat -> Outcome, faults: nat -> int,
      ghost units0: map<UnitId, Unit>, ghost accepted0: seq<(UnitId, Content)>)
      returns (pushed: nat, warnings: nat)
      requires store.Coherent() && !store.closed && ListingOf(us, units0) && i < |us|
      requires accepted == accepted0 + SentUpTo(us, outcomes, i)
      requires store.units == Left(units0, us, outcomes, faults, i)
      modifies this`accepted, store
      ensures store.Coherent() && !store.closed
      ensures accepted == accepted0 + SentUpTo(us, outcomes, i + 1)
      ensures store.units == Left(units0, us, outcomes, faults, i + 1)
      ensures GoneCount(us, outcomes, faults, i + 1) == GoneCount(us, outcomes, faults, i) + pushed
      ensures LocalCount(us, i + 1) == LocalCount(us, i) + pushed + warnings
    {
      hide LocalIds, LocalCount, GoneCount, Left, ListingOf, ContentOf, Agree, DeleteFails, GoneUpTo, SentUpTo;
      pushed, warnings := 0, 0;
      OneMoreReached(units0, us, outcomes, faults, i);
      CountOneMore(us, units0, outcomes, faults, i);
      if us[i].tier == Local {
        Sequences.ConcatAssociates(accepted0, SentUpTo(us, outcomes, i), Sent(us[i], outcomes(i)));
        var ok := PushOne(us[i], outcomes(i), faults(i));
        if ok {
          pushed := 1;
        } else {
          warnings := 1;
        }
      }
    }

    /** The loop of a drain over the listing `us` of the store. */
    method PushAll(us: seq<Unit>, outcomes: nat -> Outcome, faults: nat -> int, deadline: Option<nat>)
      returns (pushed: nat, warnings: nat)
      requires store.Coherent() && !store.closed && ListingOf(us, store.units)
      modifies this`accepted, store
      ensures store.Coherent() && !store.closed
      ensures store.units == Left(old(store.units), us, outcomes, faults, Reached(us, deadline))
      ensures accepted == old(accepted) + SentUpTo(us, outcomes, Reached(us, deadline))
      ensures pushed == |old(store.units)| - |store.units|
      ensures deadline.None? ==> pushed + warnings == LocalCount(us, |us|)
      ensures deadline.None? && AllGood(outcomes, faults) ==> warnings == 0
    {
      hide LocalIds, LocalCount, GoneCount, Left, ListingOf, ContentOf, Agree, DeleteFails, GoneUpTo, SentUpTo;
      ghost var units0, accepted0 := store.units, accepted;
      pushed, warnings := 0, 0;
      NothingReached(units0, us, outcomes, faults);
      NothingCounted(us, outcomes, faults);
      var i := 0;
      while i < |us|
        invariant 0 <= i <= |us| && store.Coherent() && !store.closed
        invariant accepted == accepted0 + SentUpTo(us, outcomes, i)
        invariant store.units == Left(units0, us, outcomes, faults, i)
        invariant pushed == GoneCount(us, outcomes, faults, i) && pushed + warnings == LocalCount(us, i)
        invariant deadline.Some? ==> i <= deadline.value
      {
        if deadline == Some(i) {
          GoneSize(us, units0, outcomes, faults, i);
          warnings := warnings + 1;
          return;
        }
        var ok, failed := HandleOne(us, i, outcomes, faults, units0, accepted0);
        pushed, warnings := pushed + ok, warnings + failed;
        i := i + 1;
      }
      GoneSize(us, units0, outcomes, faults, i);
      if AllGood(outcomes, faults) {
        AllGoodTakesAll(us, outcomes, faults, i);
      }
    }

    /**
     `outcomes(i)` and `faults(i)` decide the push of the i-th listed unit; `deadline` is the number of
     units handled before the context expires, if it does; `us` is that listing.
     */
    method Drain(outcomes: nat -> Outcome, faults: nat -> int, deadline: Option<nat>)
      returns (r: Option<Result<DrainResult, StoreError>>, ghost us: seq<Unit>)
      requires store.Coherent()
      modifies this`accepted, store
      ensures store.Coherent() && old(accepted) <= accepted
      ensures r.None? <==> !hasRemote
      ensures hasRemote ==> (r.value.Err? <==> old(store.closed))
      ensures r.None? || r.value.Err? ==> store.units == old(store.units) && accepted == old(accepted)
      // One failing unit does not block the others: each is pushed in turn and gone if its own steps worked.
      ensures r.Some? && r.value.Ok? ==>
        && ListingOf(us, old(store.units))
        && store.units == Left(old(store.units), us, outcomes, faults, Reached(us, deadline))
        && accepted == old(accepted) + SentUpTo(us, outcomes, Reached(us, deadline))
      // Every unit is either left alone or was a local one the remote took; the remote took nothing else.
      ensures Drained(old(store.units), store.units, accepted[|old(accepted)|..])
      ensures r.Some? && r.value.Ok? ==> r.value.value.pushed == |old(store.units)| - |store.units|
      // One push or one warning per drainable unit, plus a warning for an expired context.
      ensures r.Some? && r.value.Ok? && deadline.None? ==>
        r.value.value.pushed + r.value.value.warnings == |Drainable(old(store.units))|
      // With a remote that accepts and a store that works, a drain empties the local tier.
      ensures r.Some? && r.value.Ok? && deadline.None?
              && AllGood(outcomes, faults) ==>
        r.value.value.warnings == 0 && store.units.Keys == old(store.units).Keys - Drainable(old(store.units))
    {
      hide GoneUpTo, SentUpTo, Drainable, LocalIds, ContentOf, Agree;
      us := [];
      if !hasRemote {
        return None, us;
      }
      var all := store.All();
      if all.Err? {
        return Some(Err(all.error)), us;
      }
      us := all.value;
      CoherentUnits(store);
      var pushed, warnings := PushAll(all.value, outcomes, faults, deadline);
      GoneIsDrained(us, old(store.units), outcomes, faults, Reached(us, deadline));
      ListingDrainable(us, old(store.units));
      if AllGood(outcomes, faults) {
        AllGoodTakesAll(us, outcomes, faults, |us|);
      }
      assert accepted[|old(accepted)|..] == SentUpTo(us, outcomes, Reached(us, deadline));
      return Some(Ok(DrainResult(pushed, warnings))), us;
    }
  }

  lemma CoherentUnits(store: LocalStore)
    requires store.Coherent()
    ensures UnitsOk(store.units)
  {
  }

  // ---- The same operations as steps of the protocol ----

  /** Propose as task `t` of the protocol, run to its end. */
  ghost function ProposeSteps(s: State, t: nat, u: Unit, outcome: Outcome, fails: bool): State
    requires Enabled(s, StartPropose(t, u))
  {
    var s1 := Next(s, StartPropose(t, u));
    if !s.hasRemote then Next(s1, Insert(t, fails))
    else
      var s2 := Next(s1, CallRemote(t, outcome));
      if Stores(true, outcome) then Next(s2, Insert(t, fails)) else s2
  }

  /** It leaves the store and the remote as `Client.Propose` does. */
  lemma ProposeIsSteps(s: State, t: nat, u: Unit, outcome: Outcome, fails: bool)
    requires Enabled(s, StartPropose(t, u))
    ensures var s' := ProposeSteps(s, t, u, outcome, fails);
      && s'.local == ProposedUnits(s.local, u, s.hasRemote, outcome, fails)
      && s'.accepted == s.accepted + (if s.hasRemote then Sent(u, outcome) else [])
      && s'.tasks[t].Finished?
  {
    hide Normalized, ContentOf;
  }

  ghost function FeedbackSteps(s: State, t: nat, id: UnitId, feedback: Scoring.Feedback, fails: bool): State
    requires t !in s.tasks
  {
    var s1 := Next(s, StartFeedback(t, id, feedback));
    var s2 := Next(s1, Get(t, false));
    if id in s.local then Next(s2, Update(t, fails)) else s2
  }

  /** Confirm and Flag leave the store as `Client.GiveFeedback` does. */
  lemma FeedbackIsSteps(s: State, t: nat, id: UnitId, feedback: Scoring.Feedback, fails: bool)
    requires t !in s.tasks && UnitsOk(s.local)
    ensures var s' := FeedbackSteps(s, t, id, feedback, fails);
      && s'.local == FeedbackUnits(s.local, id, feedback, fails)
      && s'.accepted == s.accepted && s'.tasks[t].Finished?
  {
    hide Normalized;
    if id in s.local {
      var u := Scoring.ApplyFeedback(s.local[id], feedback);
      NormalizedFixed(u.domains);
      assert u.id == id && Stored(u) == u;
    }
  }

  /** The task's next listed unit: a push and, once it is accepted, the delete. */
  ghost function PushSteps(s: State, t: nat, us: seq<Unit>, n: nat, outcome: Outcome, fails: bool): (s': State)
    requires n < |us| && t in s.tasks && s.tasks[t] == Scanning(us, n)
    ensures t in s'.tasks && s'.tasks[t] == Scanning(us, n + 1)
  {
    var s1 := Next(s, Push(t, outcome));
    if us[n].tier == Local && outcome.Accepted? then Next(s1, Delete(t, fails)) else s1
  }

  lemma PushIsSteps(s: State, t: nat, us: seq<Unit>, n: nat, outcome: Outcome, fails: bool)
    requires n < |us| && t in s.tasks && s.tasks[t] == Scanning(us, n)
    ensures var s' := PushSteps(s, t, us, n, outcome, fails);
      && s'.local == (if us[n].tier == Local && outcome.Accepted? && !fails then s.local - {us[n].id} else s.local)
      && s'.accepted == (if us[n].tier == Local then s.accepted + Sent(us[n], outcome) else s.accepted)
  {
    hide ContentOf;
    assert s.accepted + [] == s.accepted;
  }

  /** The drain task `t` from its first listed unit to just before unit `n`. */
  ghost function DrainSteps(
    s: State, t: nat, us: seq<Unit>, outcomes: nat -> Outcome, faults: nat -> int, n: nat): (s': State)
    requires n <= |us| && t in s.tasks && s.tasks[t] == Scanning(us, 0)
    ensures t in s'.tasks && s'.tasks[t] == Scanning(us, n)
  {
    if n == 0 then s
    else
      hide Next, Enabled;
      PushSteps(
        DrainSteps(s, t, us, outcomes, faults, n - 1), t, us, n - 1, outcomes(n - 1), DeleteFails(faults(n - 1)))
  }

  /** After every listed unit the protocol's drain has done what the loop of `Client.Drain` has. */
  lemma {:induction false} DrainIsSteps(
    s: State, t: nat, us: seq<Unit>, outcomes: nat -> Outcome, faults: nat -> int, n: nat)
    requires n <= |us| && t in s.tasks && s.tasks[t] == Scanning(us, 0)
    ensures var s' := DrainSteps(s, t, us, outcomes, faults, n);
      && s'.local == Left(s.local, us, outcomes, faults, n)
      && s'.accepted == s.accepted + SentUpTo(us, outcomes, n)
  {
    hide Sent, DeleteFails, PushSteps, Left, SentUpTo;
    if n == 0 {
      NothingReached(s.local, us, outcomes, faults);
    } else {
      DrainIsSteps(s, t, us, outcomes, faults, n - 1);
      OneMoreReached(s.local, us, outcomes, faults, n - 1);
      PushIsSteps(
        DrainSteps(s, t, us, outcomes, faults, n - 1), t, us, n - 1, outcomes(n - 1), DeleteFails(faults(n - 1)));
    }
  }
}
