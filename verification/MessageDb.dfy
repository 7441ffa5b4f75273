/** The message store of `Delivery` as tables updated in place, and the session process that polls it. */
module MessageDb {
  import opened Prelude
  import opened Ranking
  import opened Crosstalk
  import opened Delivery
  import Sequences

  /** `deliveries` after rows were added for `recipients`. */
  function WithRows(
    deliveries: map<Key, DeliveryRow>, id: MessageId, recipients: set<Session>, deliveredAt: Option<Time>,
    gates: map<Session, Layer>): map<Key, DeliveryRow>
  {
    (map r | r in recipients :: (id, r) := DeliveryRow(deliveredAt, GatedBy(gates, r))) + deliveries
  }

  lemma WithOneMoreRow(
    deliveries: map<Key, DeliveryRow>, id: MessageId, done: set<Session>, r: Session, deliveredAt: Option<Time>,
    gates: map<Session, Layer>)
    ensures WithRows(deliveries, id, done + {r}, deliveredAt, gates) ==
            if (id, r) in WithRows(deliveries, id, done, deliveredAt, gates)
            then WithRows(deliveries, id, done, deliveredAt, gates)
            else WithRows(deliveries, id, done, deliveredAt, gates)
                 [(id, r) := DeliveryRow(deliveredAt, GatedBy(gates, r))]
  {
  }

  lemma WithNoRows(
    deliveries: map<Key, DeliveryRow>, id: MessageId, deliveredAt: Option<Time>, gates: map<Session, Layer>)
    ensures WithRows(deliveries, id, {}, deliveredAt, gates) == deliveries
  {
  }

  lemma InsertAddsRows(db: Db, m: Message, deliveredAt: Option<Time>, extra: set<Session>, gates: map<Session, Layer>)
    ensures Delivery.InsertMessage(db, m, deliveredAt, extra, gates).deliveries ==
            WithRows(db.deliveries, m.id, Recipients(m, extra), deliveredAt, gates)
  {
  }

  /** `s` lists the messages `ids` once, the oldest scoring highest. */
  ghost predicate ByAge(s: seq<Scored<MessageId>>, db: Db, ids: set<MessageId>) {
    && Sequences.Distinct(s) && |s| == |ids|
    && (forall e :: e in s ==> e.item in ids && e.score == -(SentAt(db, e.item) as real))
    && (forall id :: id in ids ==> Scored(id, -(SentAt(db, id) as real)) in s)
  }

  lemma NothingByAge(db: Db)
    ensures ByAge([], db, {})
  {
  }

  lemma OneMoreByAge(s: seq<Scored<MessageId>>, db: Db, ids: set<MessageId>, id: MessageId)
    requires ByAge(s, db, ids) && id !in ids
    ensures ByAge(s + [Scored(id, -(SentAt(db, id) as real))], db, ids + {id})
  {
    hide SentAt;
  }

  /** No filter, the main session's inbox, or the inbox of one subagent. */
  datatype TagFilter = AnyTag | Untagged | Tagged(tag: string)

  predicate Lets(filter: TagFilter, m: Message) {
    filter.AnyTag? || (filter.Untagged? && m.toTag.None?) || (filter.Tagged? && m.toTag == Some(filter.tag))
  }

  predicate HasTag(db: Db, id: MessageId, filter: TagFilter) {
    id in db.messages && Lets(filter, db.messages[id].message)
  }

  /** The pending messages of `session` that the filter lets through. */
  ghost function PendingTagged(db: Db, session: Session, filter: TagFilter): set<MessageId> {
    set id | id in PendingIds(db, session) && HasTag(db, id, filter)
  }

  /** Those of them whose delivery rows are among `keys`. */
  ghost function PendingAmong(db: Db, session: Session, filter: TagFilter, keys: set<Key>): set<MessageId> {
    set k | k in keys && k.1 == session && IsPending(db, k) && HasTag(db, k.0, filter) :: k.0
  }

  lemma PendingAmongOneMore(db: Db, session: Session, filter: TagFilter, keys: set<Key>, k: Key)
    requires k !in keys
    ensures PendingAmong(db, session, filter, keys + {k}) ==
            PendingAmong(db, session, filter, keys)
            + (if k.1 == session && IsPending(db, k) && HasTag(db, k.0, filter) then {k.0} else {})
    ensures k.1 == session ==> k.0 !in PendingAmong(db, session, filter, keys)
  {
    hide IsPending, HasTag;
  }

  lemma PendingAmongAll(db: Db, session: Session, filter: TagFilter)
    ensures PendingAmong(db, session, filter, db.deliveries.Keys) == PendingTagged(db, session, filter)
    ensures PendingAmong(db, session, filter, {}) == {}
  {
    hide HasTag;
  }

  lemma AnyTagIsPending(db: Db, session: Session)
    ensures PendingTagged(db, session, AnyTag) == PendingIds(db, session)
  {
  }

  lemma ListedAreTagged(ids: seq<MessageId>, db: Db, session: Session, filter: TagFilter, limit: nat)
    requires AreOldest(ids, db, PendingTagged(db, session, filter), limit)
    ensures forall id :: id in ids ==>
      && IsPending(db, (id, session))
      && (filter == Untagged ==> db.messages[id].message.toTag == None)
      && (filter.Tagged? ==> db.messages[id].message.toTag == Some(filter.tag))
    ensures |ids| < limit ==>
      forall id | IsPending(db, (id, session)) ::
        filter == AnyTag || (filter == Untagged && db.messages[id].message.toTag == None)
        || (filter.Tagged? && db.messages[id].message.toTag == Some(filter.tag)) ==>
          id in ids
  {
    var pending := PendingTagged(db, session, filter);
    forall id ensures id in pending <==> IsPending(db, (id, session)) && HasTag(db, id, filter) {
      PendingIsKey(db, session, id);
    }
    if |ids| < limit {
      ShortListIsAll(ids, db, pending, limit);
    }
  }

  lemma ListedInOrder(ids: seq<MessageId>, db: Db, pending: set<MessageId>, limit: nat)
    requires AreOldest(ids, db, pending, limit)
    ensures |ids| <= limit
    ensures forall i, j :: 0 <= i < j < |ids| ==> ids[i] != ids[j] && SentAt(db, ids[i]) <= SentAt(db, ids[j])
    ensures forall id, i :: id in pending && id !in ids && 0 <= i < |ids| ==> SentAt(db, ids[i]) <= SentAt(db, id)
  {
    hide SentAt;
  }

  lemma ShortListIsAll(ids: seq<MessageId>, db: Db, pending: set<MessageId>, limit: nat)
    requires AreOldest(ids, db, pending, limit) && |ids| < limit
    ensures forall id :: id in pending ==> id in ids
  {
    Sequences.DistinctCardinality(ids);
    var listed := set id | id in ids;
    if id :| id in pending && id !in ids {
      Sequences.SubsetSize(listed + {id}, pending);
    }
  }

  lemma SortedByAge(s: seq<Scored<MessageId>>, db: Db, ids: set<MessageId>)
    requires ByAge(s, db, ids)
    ensures ByAge(StableDesc(s), db, ids) && Descending(StableDesc(s))
  {
    hide SentAt, StableDesc;
    StableDescSorts(s);
    StableDescMembers(s);
  }

  lemma OmittedAreYounger(
    t: seq<Scored<MessageId>>, db: Db, pending: set<MessageId>, limit: nat, id: MessageId, j: nat)
    requires ByAge(t, db, pending) && Descending(t)
    requires id in pending && id !in FirstItems(t, limit) && j < |FirstItems(t, limit)|
    ensures SentAt(db, FirstItems(t, limit)[j]) <= SentAt(db, id)
  {
    hide SentAt, FirstItems;
    assert t[j] in t;
    CutKeepsTheBest(t, limit, Scored(id, -(SentAt(db, id) as real)), j);
  }

  lemma OldestComeFirst(t: seq<Scored<MessageId>>, db: Db, pending: set<MessageId>, limit: nat)
    requires ByAge(t, db, pending) && Descending(t)
    ensures AreOldest(FirstItems(t, limit), db, pending, limit)
  {
    hide SentAt, FirstItems;
    var l := FirstItems(t, limit);
    forall i, j | 0 <= i < j < |l| ensures l[i] != l[j] && SentAt(db, l[i]) <= SentAt(db, l[j]) {
      assert t[i] in t && t[j] in t && t[i] != t[j];
    }
    forall i | 0 <= i < |l| ensures l[i] in pending {
      assert t[i] in t;
    }
    forall id, j: nat | id in pending && id !in l && j < |l| ensures SentAt(db, l[j]) <= SentAt(db, id) {
      OmittedAreYounger(t, db, pending, limit, id, j);
    }
  }

  lemma MarkOneMore(db: Db, ids: set<MessageId>, id: MessageId, session: Session, now: Time)
    ensures MarkDelivered(MarkAll(db, ids, session, now), id, session, now) == MarkAll(db, ids + {id}, session, now)
  {
    var was, r := MarkAll(db, ids, session, now), MarkAll(db, ids + {id}, session, now);
    assert MarkDelivered(was, id, session, now).messages == r.messages;
    assert MarkDelivered(was, id, session, now).deliveries == r.deliveries;
  }

  class MessageStore {
    var messages: map<MessageId, MessageRow>
    var deliveries: map<Key, DeliveryRow>

    ghost function View(): Db
      reads this
    {
      Db(messages, deliveries)
    }

    method InsertMessage(m: Message, deliveredAt: Option<Time>, extra: set<Session>, gates: map<Session, Layer>)
      modifies this
      ensures View() == Delivery.InsertMessage(old(View()), m, deliveredAt, extra, gates)
    {
      hide WithRows;
      if m.id !in messages {
        messages := messages[m.id := MessageRow(m, deliveredAt)];
      }
      var recipients := {m.to} + extra;
      var rest := recipients;
      assert recipients - rest == {};
      WithNoRows(deliveries, m.id, deliveredAt, gates);
      while rest != {}
        invariant rest <= recipients
        invariant deliveries == WithRows(old(deliveries), m.id, recipients - rest, deliveredAt, gates)
        invariant messages == Delivery.InsertMessage(old(View()), m, deliveredAt, extra, gates).messages
        decreases rest
      {
        var r :| r in rest;
        WithOneMoreRow(old(deliveries), m.id, recipients - rest, r, deliveredAt, gates);
        assert recipients - (rest - {r}) == (recipients - rest) + {r};
        rest := rest - {r};
        if (m.id, r) !in deliveries {
          deliveries := deliveries[(m.id, r) := DeliveryRow(deliveredAt, GatedBy(gates, r))];
        }
      }
      assert recipients - rest == recipients;
      InsertAddsRows(old(View()), m, deliveredAt, extra, gates);
    }

    method MarkDelivered(id: MessageId, session: Session, now: Time)
      modifies this
      ensures View() == Delivery.MarkDelivered(old(View()), id, session, now)
    {
      if (id, session) in deliveries {
        deliveries := deliveries[(id, session) := deliveries[(id, session)].(deliveredAt := Some(now))];
      }
      if id in messages {
        messages := messages[id := messages[id].(deliveredAt := Some(now))];
      }
    }

    /** Opts `session` out of a thread: its pending rows there count as delivered from now on. */
    method Decline(session: Session, thread: string, now: Time)
      modifies this
      ensures View() == Dismiss(old(View()), session, InThread(thread), now)
      ensures messages == old(messages) && deliveries.Keys == old(deliveries.Keys)
      ensures forall k :: k in deliveries ==>
        deliveries[k] ==
        if k.1 == session && old(deliveries[k].deliveredAt.None?) && k.0 in messages
           && messages[k.0].message.thread == thread
        then old(deliveries[k]).(deliveredAt := Some(now)) else old(deliveries[k])
    {
      deliveries := map k | k in deliveries ::
        if k.1 == session && deliveries[k].deliveredAt.None? && k.0 in messages
           && messages[k.0].message.thread == thread
        then deliveries[k].(deliveredAt := Some(now)) else deliveries[k];
    }

    method RejectRouting(session: Session, thread: string, now: Time)
      modifies this
      ensures View() == Dismiss(old(View()), session, RoutedInThread(thread, session), now)
      ensures messages == old(messages) && deliveries.Keys == old(deliveries.Keys)
      ensures forall k :: k in deliveries ==>
        deliveries[k] ==
        if k.1 == session && old(deliveries[k].deliveredAt.None?) && k.0 in messages
           && messages[k.0].message.thread == thread && messages[k.0].message.to == session
           && messages[k.0].message.toTag != None
        then old(deliveries[k]).(deliveredAt := Some(now)) else old(deliveries[k])
    {
      deliveries := map k | k in deliveries ::
        if k.1 == session && deliveries[k].deliveredAt.None? && k.0 in messages
           && messages[k.0].message.thread == thread && messages[k.0].message.to == session
           && messages[k.0].message.toTag.Some?
        then deliveries[k].(deliveredAt := Some(now)) else deliveries[k];
    }

    /** The join of the pending delivery rows of `session` with the messages the filter lets through. */
    method JoinPending(session: Session, filter: TagFilter) returns (rows: seq<Scored<MessageId>>)
      ensures ByAge(rows, View(), PendingTagged(View(), session, filter))
    {
      hide PendingAmong, PendingTagged, ByAge;
      ghost var db := View();
      var keys := deliveries.Keys;
      rows := [];
      PendingAmongAll(db, session, filter);
      assert deliveries.Keys - keys == {};
      NothingByAge(db);
      while keys != {}
        invariant keys <= deliveries.Keys
        invariant ByAge(rows, db, PendingAmong(db, session, filter, deliveries.Keys - keys))
        decreases keys
      {
        var k :| k in keys;
        ghost var seen := deliveries.Keys - keys;
        PendingAmongOneMore(db, session, filter, seen, k);
        keys := keys - {k};
        assert deliveries.Keys - keys == seen + {k};
        if k.1 == session && deliveries[k].deliveredAt.None? && k.0 in messages
           && Lets(filter, messages[k.0].message) {
          OneMoreByAge(rows, db, PendingAmong(db, session, filter, seen), k.0);
          rows := rows + [Scored(k.0, -(messages[k.0].message.ts as real))];
        } else {
          assert PendingAmong(db, session, filter, seen + {k}) == PendingAmong(db, session, filter, seen);
        }
      }
      assert deliveries.Keys - keys == deliveries.Keys;
    }

    method PendingForSession(session: Session, limit: nat, filter: TagFilter) returns (ids: seq<MessageId>)
      ensures AreOldest(ids, View(), PendingTagged(View(), session, filter), limit)
      ensures forall id :: id in ids ==>
        && (id, session) in deliveries && deliveries[(id, session)].deliveredAt == None && id in messages
        && (filter == Untagged ==> messages[id].message.toTag == None)
        && (filter.Tagged? ==> messages[id].message.toTag == Some(filter.tag))
      ensures |ids| <= limit && forall i, j :: 0 <= i < j < |ids| ==>
        ids[i] != ids[j] && SentAt(View(), ids[i]) <= SentAt(View(), ids[j])
      ensures forall id, i :: id in PendingTagged(View(), session, filter) && id !in ids && 0 <= i < |ids| ==>
        SentAt(View(), ids[i]) <= SentAt(View(), id)
      ensures |ids| < limit ==>
        forall id | (id, session) in deliveries && deliveries[(id, session)].deliveredAt == None && id in messages ::
          filter == AnyTag || (filter == Untagged && messages[id].message.toTag == None)
          || (filter.Tagged? && messages[id].message.toTag == Some(filter.tag)) ==>
            id in ids
    {
      hide AreOldest, ByAge, StableDesc, PendingTagged;
      var rows := JoinPending(session, filter);
      var table := new Scored<MessageId>[|rows|](i requires 0 <= i < |rows| => rows[i]);
      assert table[..] == rows;
      SortDescending(table);
      SortedByAge(rows, View(), PendingTagged(View(), session, filter));
      OldestComeFirst(table[..], View(), PendingTagged(View(), session, filter), limit);
      ids := FirstItems(table[..], limit);
      ListedAreTagged(ids, View(), session, filter, limit);
      ListedInOrder(ids, View(), PendingTagged(View(), session, filter), limit);
    }
  }

  /** The message of a line has a delivery row for its addressee, or for the session that reads it. */
  predicate IsIn(m: Message, reader: Session, db: Db) {
    (m.id, if m.to == "" then reader else m.to) in db.deliveries
  }

  lemma LineIsIn(db: Db, lines: seq<Option<Message>>, offset: nat, reader: Session, i: nat)
    requires Linked(db) && offset <= i < |lines| && lines[i].Some?
    ensures IsIn(lines[i].value, reader, IngestLines(db, lines[offset..], reader))
  {
    assert lines[offset..][i - offset] == lines[i];
    IngestAddsRow(db, lines[offset..], reader, i - offset);
  }

  /** A poll that does not reach its limit leaves no row of the session pending. */
  lemma PolledRows(db: Db, ids: seq<MessageId>, session: Session, now: Time)
    requires IsPendingList(ids, db, session, POLL_LIMIT)
    ensures var after := MarkAll(db, Ids(ids), session, now);
      && (forall id :: id in ids ==>
            (id, session) in after.deliveries && after.deliveries[(id, session)].deliveredAt == Some(now))
      && (Linked(db) && |ids| < POLL_LIMIT ==>
            forall k :: k in db.deliveries && k.1 == session ==>
              k in after.deliveries && after.deliveries[k].deliveredAt != None)
  {
    hide AreOldest, MarkAll;
    MarkAllStamps(db, Ids(ids), session, now);
    AnyTagIsPending(db, session);
    ListedAreTagged(ids, db, session, AnyTag, POLL_LIMIT);
    forall k | Linked(db) && |ids| < POLL_LIMIT && k in db.deliveries && k.1 == session
      ensures k.0 in ids || db.deliveries[k].deliveredAt != None
    {
      assert k == (k.0, session);
    }
  }

  lemma IngestLinks(db: Db, lines: seq<Option<Message>>, session: Session)
    ensures Linked(db) ==> Linked(IngestLines(db, lines, session))
  {
    if Linked(db) {
      IngestOnlyAdds(db, lines, session);
    }
  }

  /** The server process of one session. */
  class SessionServer {
    const name: Session
    const store: MessageStore
    var inboxOffset: nat

    /** Start-up: the inbox file, here of `size` lines, counts as read. */
    constructor (name: Session, store: MessageStore, size: nat)
      ensures this.name == name && this.store == store && inboxOffset == size
    {
      this.name, this.store, inboxOffset := name, store, size;
    }

    method IngestInboxFile(lines: seq<Option<Message>>)
      modifies this, store
      ensures inboxOffset == if |lines| <= old(inboxOffset) then old(inboxOffset) else |lines|
      ensures store.View() == if |lines| <= old(inboxOffset) then old(store.View())
                              else IngestLines(old(store.View()), lines[old(inboxOffset)..], name)
      ensures Linked(old(store.View())) ==>
        forall i :: old(inboxOffset) <= i < |lines| && lines[i].Some? ==> IsIn(lines[i].value, name, store.View())
    {
      hide IsIn;
      if |lines| <= inboxOffset {
        return;
      }
      forall i | inboxOffset <= i < |lines| && lines[i].Some? && Linked(store.View())
        ensures IsIn(lines[i].value, name, IngestLines(store.View(), lines[inboxOffset..], name))
      {
        LineIsIn(store.View(), lines, inboxOffset, name, i);
      }
      var chunk := lines[inboxOffset..];
      inboxOffset := |lines|;
      var i := 0;
      while i < |chunk|
        invariant 0 <= i <= |chunk| && inboxOffset == |lines|
        invariant store.View() == IngestLines(old(store.View()), chunk[..i], name)
      {
        assert chunk[..i + 1][..i] == chunk[..i];
        if chunk[i].Some? {
          store.InsertMessage(Ingested(chunk[i].value, name), None, {}, map[]);
        }
        i := i + 1;
      }
      assert chunk[..i] == chunk;
    }

    /** Emits one notification per polled message and marks it delivered; `ids` are the messages notified. */
    method PollInbox(lines: seq<Option<Message>>, now: Time) returns (ids: seq<MessageId>)
      modifies this, store
      ensures inboxOffset == if |lines| <= old(inboxOffset) then old(inboxOffset) else |lines|
      ensures var ingested := if |lines| <= old(inboxOffset) then old(store.View())
                              else IngestLines(old(store.View()), lines[old(inboxOffset)..], name);
              IsPendingList(ids, ingested, name, POLL_LIMIT)
              && store.View() == MarkAll(ingested, Ids(ids), name, now)
      ensures |ids| <= 20 && forall id :: id in ids ==>
        (id, name) in store.deliveries && store.deliveries[(id, name)].deliveredAt == Some(now)
      ensures Linked(old(store.View())) && |ids| < 20 ==>
        forall i :: old(inboxOffset) <= i < |lines| && lines[i].Some? && lines[i].value.to in {"", name} ==>
          (lines[i].value.id, name) in store.deliveries
          && store.deliveries[(lines[i].value.id, name)].deliveredAt != None
    {
      hide AreOldest, PendingTagged, MarkAll, IngestLines, Delivery.MarkDelivered, Linked, PendingIds;
      ghost var unread := if |lines| <= inboxOffset then [] else lines[inboxOffset..];
      IngestLinks(store.View(), unread, name);
      IngestInboxFile(lines);
      ghost var ingested := store.View();
      var pending := store.PendingForSession(name, POLL_LIMIT, AnyTag);
      AnyTagIsPending(ingested, name);
      ids := [];
      MarkNone(ingested, name, now);
      for i := 0 to |pending|
        invariant ids == pending[..i]
        invariant store.View() == MarkAll(ingested, Ids(ids), name, now)
        invariant inboxOffset == if |lines| <= old(inboxOffset) then old(inboxOffset) else |lines|
      {
        MarkOneMore(ingested, Ids(ids), pending[i], name, now);
        assert Ids(ids + [pending[i]]) == Ids(ids) + {pending[i]};
        store.MarkDelivered(pending[i], name, now);
        ids := ids + [pending[i]];
      }
      assert ids == pending;
      PolledRows(ingested, ids, name, now);
    }
  }

  lemma MarkNone(db: Db, session: Session, now: Time)
    ensures MarkAll(db, Ids([]), session, now) == db
  {
    var r := MarkAll(db, Ids([]), session, now);
    assert r.messages == db.messages && r.deliveries == db.deliveries;
  }
}
