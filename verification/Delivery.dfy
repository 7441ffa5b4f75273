/**
 Message delivery between sessions: a shared database of messages and per-recipient delivery rows, and one
 inbox file per session that is ingested into it.
 */
module Delivery {
  import opened Prelude
  import opened Crosstalk
  import opened Sequences

  type MessageId = string

  datatype Message = Message(
    id: MessageId, thread: string, ts: Time, sender: Session, to: Session, content: string, toTag: Option<string>)

  datatype Layer = L0 | L1 | L2

  datatype MessageRow = MessageRow(message: Message, deliveredAt: Option<Time>)

  datatype DeliveryRow = DeliveryRow(deliveredAt: Option<Time>, gatedBy: Option<Layer>)

  type Key = (MessageId, Session)

  datatype Db = Db(messages: map<MessageId, MessageRow>, deliveries: map<Key, DeliveryRow>)

  const POLL_LIMIT := 20

  function Recipients(m: Message, extra: set<Session>): set<Session> {
    {m.to} + extra
  }

  function GatedBy(gates: map<Session, Layer>, r: Session): Option<Layer> {
    if r in gates then Some(gates[r]) else None
  }

  /** A message row and one delivery row per recipient; rows that exist already are left as they are. */
  function InsertMessage(
    db: Db, m: Message, deliveredAt: Option<Time>, extra: set<Session>, gates: map<Session, Layer>): Db
  {
    Db(if m.id in db.messages then db.messages else db.messages[m.id := MessageRow(m, deliveredAt)],
       (map r | r in Recipients(m, extra) :: (m.id, r) := DeliveryRow(deliveredAt, GatedBy(gates, r)))
       + db.deliveries)
  }

  /** Marks the delivery row, and the message row of older databases, as delivered. */
  function MarkDelivered(db: Db, id: MessageId, session: Session, now: Time): Db {
    Db(if id in db.messages then db.messages[id := db.messages[id].(deliveredAt := Some(now))] else db.messages,
       if (id, session) in db.deliveries
       then db.deliveries[(id, session) := db.deliveries[(id, session)].(deliveredAt := Some(now))]
       else db.deliveries)
  }

  predicate IsPending(db: Db, k: Key) {
    k in db.deliveries && db.deliveries[k].deliveredAt.None? && k.0 in db.messages
  }

  function PendingIds(db: Db, session: Session): set<MessageId> {
    set k | k in db.deliveries && k.1 == session && IsPending(db, k) :: k.0
  }

  function SentAt(db: Db, id: MessageId): Time {
    if id in db.messages then db.messages[id].message.ts else 0
  }

  /** `l` lists the oldest messages of `pending`, oldest first, at most `limit`. */
  ghost predicate AreOldest(l: seq<MessageId>, db: Db, pending: set<MessageId>, limit: nat) {
    && Distinct(l) && |l| == (if |pending| <= limit then |pending| else limit)
    && (forall id :: id in l ==> id in pending)
    && (forall i, j :: 0 <= i < j < |l| ==> SentAt(db, l[i]) <= SentAt(db, l[j]))
    && (forall id, j :: id in pending && id !in l && 0 <= j < |l| ==> SentAt(db, l[j]) <= SentAt(db, id))
  }

  /** `l` is an answer to the pending query of a poll. */
  ghost predicate IsPendingList(l: seq<MessageId>, db: Db, session: Session, limit: nat) {
    AreOldest(l, db, PendingIds(db, session), limit)
  }

  /** Marks every pending row of `session` whose message satisfies `chosen`, without notifying. */
  ghost function Dismiss(db: Db, session: Session, chosen: Message -> bool, now: Time): Db {
    db.(deliveries := map k | k in db.deliveries ::
          if k.1 == session && IsPending(db, k) && chosen(db.messages[k.0].message)
          then db.deliveries[k].(deliveredAt := Some(now)) else db.deliveries[k])
  }

  /** The start-up statement that gives every message of an older database a delivery row. */
  function Seed(db: Db): Db {
    db.(deliveries :=
          (map id | id in db.messages ::
             (id, db.messages[id].message.to) := DeliveryRow(db.messages[id].deliveredAt, None))
          + db.deliveries)
  }

  /** A line of an inbox file as it is ingested: tags are not carried over. */
  function Ingested(m: Message, session: Session): Message {
    m.(to := if m.to == "" then session else m.to, toTag := None)
  }

  /** A line that does not parse is skipped. */
  function IngestLines(db: Db, lines: seq<Option<Message>>, session: Session): Db {
    if lines == [] then db
    else
      var before := IngestLines(db, lines[..|lines| - 1], session);
      match lines[|lines| - 1]
      case None => before
      case Some(m) => InsertMessage(before, Ingested(m, session), None, {}, map[])
  }

  /** The database after every message of `ids` has been marked delivered for `session`. */
  function MarkAll(db: Db, ids: set<MessageId>, session: Session, now: Time): Db {
    Db(map id | id in db.messages ::
         if id in ids then db.messages[id].(deliveredAt := Some(now)) else db.messages[id],
       map k | k in db.deliveries ::
         if k.1 == session && k.0 in ids then db.deliveries[k].(deliveredAt := Some(now)) else db.deliveries[k])
  }

  function Ids(ids: seq<MessageId>): set<MessageId> {
    set id | id in ids
  }

  // ---- Runs over all sessions ----

  /**
   `notified` records the channel notifications in order, `dismissed` the rows a session opted out of and
   `legacy` the rows seeded as delivered from an older database.
   */
  datatype State = State(
    db: Db,
    files: map<Session, seq<Option<Message>>>,
    offsets: map<Session, nat>,
    notified: seq<Key>,
    dismissed: set<Key>,
    legacy: set<Key>)

  datatype Event =
    | Send(m: Message, extra: set<Session>, gates: map<Session, Layer>)
    | Append(session: Session, line: Option<Message>)
    | Start(session: Session)
    | Ingest(session: Session)
    | Notify(session: Session, ids: seq<MessageId>, now: Time)
    | Decline(session: Session, thread: string, now: Time)
    | RejectRouting(session: Session, thread: string, now: Time)

  function Lines(s: State, session: Session): seq<Option<Message>> {
    if session in s.files then s.files[session] else []
  }

  ghost predicate Init(s: State) {
    && (exists legacyDb: Db :: legacyDb.deliveries == map[] && s.db == Seed(legacyDb))
    && s.offsets == map[] && s.notified == [] && s.dismissed == {}
    && s.legacy == set k | k in s.db.deliveries && s.db.deliveries[k].deliveredAt.Some?
  }

  ghost predicate Enabled(s: State, e: Event) {
    match e
    case Send(_, _, _) => true
    case Append(_, _) => true
    case Start(_) => true
    case Ingest(session) => session in s.offsets
    case Notify(session, ids, _) => session in s.offsets && IsPendingList(ids, s.db, session, POLL_LIMIT)
    case Decline(session, _, _) => session in s.offsets
    case RejectRouting(session, _, _) => session in s.offsets
  }

  function InThread(thread: string): Message -> bool {
    (m: Message) => m.thread == thread
  }

  function RoutedInThread(thread: string, session: Session): Message -> bool {
    (m: Message) => m.thread == thread && m.to == session && m.toTag.Some?
  }

  /** The rows of `session` that `Dismiss` marks. */
  ghost function Dismissed(db: Db, session: Session, chosen: Message -> bool): set<Key> {
    set k | k in db.deliveries && k.1 == session && IsPending(db, k) && chosen(db.messages[k.0].message)
  }

  function KeysFor(ids: seq<MessageId>, session: Session): (r: seq<Key>)
    ensures |r| == |ids| && forall i :: 0 <= i < |ids| ==> r[i] == (ids[i], session)
  {
    seq(|ids|, i requires 0 <= i < |ids| => (ids[i], session))
  }

  ghost function Next(s: State, e: Event): State
    requires Enabled(s, e)
  {
    match e
    case Send(m, extra, gates) => s.(db := InsertMessage(s.db, m, None, extra, gates))
    case Append(session, line) => s.(files := s.files[session := Lines(s, session) + [line]])
    case Start(session) => s.(db := Seed(s.db), offsets := s.offsets[session := |Lines(s, session)|])
    case Ingest(session) =>
      var lines := Lines(s, session);
      if |lines| <= s.offsets[session] then s
      else s.(db := IngestLines(s.db, lines[s.offsets[session]..], session),
              offsets := s.offsets[session := |lines|])
    case Notify(session, ids, now) =>
      s.(db := MarkAll(s.db, Ids(ids), session, now), notified := s.notified + KeysFor(ids, session))
    case Decline(session, thread, now) =>
      s.(db := Dismiss(s.db, session, InThread(thread), now),
         dismissed := s.dismissed + Dismissed(s.db, session, InThread(thread)))
    case RejectRouting(session, thread, now) =>
      s.(db := Dismiss(s.db, session, RoutedInThread(thread, session), now),
         dismissed := s.dismissed + Dismissed(s.db, session, RoutedInThread(thread, session)))
  }

  ghost predicate IsRun(ss: seq<State>, es: seq<Event>) {
    && |ss| == |es| + 1
    && Init(ss[0])
    && forall i :: 0 <= i < |es| ==> Enabled(ss[i], es[i]) && ss[i + 1] == Next(ss[i], es[i])
  }

  /** Anyone may send and append at any time, and any session may start; once started it may do everything else. */
  lemma StartedSessionsAct(s: State, session: Session)
    ensures Enabled(s, Start(session)) && session in Next(s, Start(session)).offsets
    ensures forall m, extra, gates :: Enabled(s, Send(m, extra, gates))
    ensures forall line :: Enabled(s, Append(session, line))
    ensures Enabled(s, Ingest(session)) <==> session in s.offsets
    ensures forall thread, now ::
              (Enabled(s, Decline(session, thread, now)) <==> session in s.offsets)
              && (Enabled(s, RejectRouting(session, thread, now)) <==> session in s.offsets)
    ensures forall ids, now ::
              Enabled(s, Notify(session, ids, now)) <==>
              session in s.offsets && IsPendingList(ids, s.db, session, POLL_LIMIT)
  {
  }

  // ---- At most one notification, nothing lost ----

  /** Every message's own addressee has a delivery row, and every delivery row has its message. */
  ghost predicate Linked(db: Db) {
    && (forall id :: id in db.messages ==> (id, db.messages[id].message.to) in db.deliveries)
    && (forall k :: k in db.deliveries ==> k.0 in db.messages)
  }

  ghost predicate IsDone(db: Db, k: Key) {
    k in db.deliveries && db.deliveries[k].deliveredAt.Some?
  }

  /** A delivered row was notified, dismissed or delivered before, and only one of the three. */
  ghost predicate Accounted(s: State) {
    && Distinct(s.notified)
    && (forall k :: k in s.db.deliveries ==>
          (IsDone(s.db, k) <==> k in s.notified || k in s.dismissed || k in s.legacy))
    && (forall k :: k in s.notified || k in s.dismissed || k in s.legacy ==> k in s.db.deliveries)
    && (forall k :: k in s.notified ==> k !in s.dismissed && k !in s.legacy)
    && s.dismissed !! s.legacy
  }

  ghost predicate Inv(s: State) {
    Linked(s.db) && Accounted(s)
  }

  /** `db'` adds pending rows to `db` and changes nothing else. */
  ghost predicate OnlyAdds(db: Db, db': Db) {
    && (forall k :: k in db.deliveries ==> k in db'.deliveries && db'.deliveries[k] == db.deliveries[k])
    && (forall k :: k in db'.deliveries && k !in db.deliveries ==> db'.deliveries[k].deliveredAt.None?)
    && (forall id :: id in db.messages ==> id in db'.messages && db'.messages[id] == db.messages[id])
  }

  lemma InsertOnlyAdds(db: Db, m: Message, extra: set<Session>, gates: map<Session, Layer>)
    requires Linked(db)
    ensures Linked(InsertMessage(db, m, None, extra, gates))
    ensures OnlyAdds(db, InsertMessage(db, m, None, extra, gates))
    ensures forall r :: r in Recipients(m, extra) ==> (m.id, r) in InsertMessage(db, m, None, extra, gates).deliveries
  {
  }

  lemma OnlyAddsTransitive(a: Db, b: Db, c: Db)
    requires OnlyAdds(a, b) && OnlyAdds(b, c)
    ensures OnlyAdds(a, c)
  {
  }

  lemma {:induction false} IngestOnlyAdds(db: Db, lines: seq<Option<Message>>, session: Session)
    requires Linked(db)
    ensures Linked(IngestLines(db, lines, session)) && OnlyAdds(db, IngestLines(db, lines, session))
  {
    hide InsertMessage, Linked, OnlyAdds;
    if lines == [] {
      OnlyAddsItself(db);
    } else {
      var last := lines[|lines| - 1];
      IngestOnlyAdds(db, lines[..|lines| - 1], session);
      if last.Some? {
        var before := IngestLines(db, lines[..|lines| - 1], session);
        InsertOnlyAdds(before, Ingested(last.value, session), {}, map[]);
        OnlyAddsTransitive(db, before, IngestLines(db, lines, session));
      }
    }
  }

  lemma OnlyAddsItself(db: Db)
    ensures OnlyAdds(db, db)
  {
  }

  /** The delivery row of a line: that of its addressee, or of the session whose file it is in. */
  function RowOf(m: Message, session: Session): Key {
    (m.id, if m.to == "" then session else m.to)
  }

  /** `m` is stored as its line says, without a tag, and pending for `to`. */
  ghost predicate IsStored(db: Db, m: Message, to: Session) {
    && m.id in db.messages && (m.id, to) in db.deliveries
    && db.messages[m.id] == MessageRow(Message(m.id, m.thread, m.ts, m.sender, to, m.content, None), None)
    && db.deliveries[(m.id, to)] == DeliveryRow(None, None)
  }

  lemma InsertStores(db: Db, m: Message, session: Session)
    requires Linked(db) && m.id !in db.messages
    ensures IsStored(InsertMessage(db, Ingested(m, session), None, {}, map[]), m, RowOf(m, session).1)
  {
  }

  /** Ingesting stores the first line of a new id as that line says. */
  lemma {:induction false} IngestStores(db: Db, lines: seq<Option<Message>>, session: Session, i: nat, m: Message)
    requires Linked(db) && i < |lines| && lines[i] == Some(m) && m.id !in db.messages
    requires forall j :: 0 <= j < i ==> !Carries(lines[j], m.id)
    ensures IsStored(IngestLines(db, lines, session), m, RowOf(m, session).1)
  {
    hide InsertMessage, Linked;
    var init, last := lines[..|lines| - 1], lines[|lines| - 1];
    var before := IngestLines(db, init, session);
    IngestOnlyAdds(db, init, session);
    if i < |init| {
      IngestStores(db, init, session, i, m);
      if last.Some? {
        InsertOnlyAdds(before, Ingested(last.value, session), {}, map[]);
      }
    } else {
      NothingUnlinked(db, m.id);
      IngestUnseen(db, init, session, m.id);
      InsertStores(before, m, session);
    }
  }

  lemma NothingUnlinked(db: Db, id: MessageId)
    requires Linked(db) && id !in db.messages
    ensures Unseen(db, id)
  {
  }

  lemma {:induction false} IngestAddsRow(db: Db, lines: seq<Option<Message>>, session: Session, i: nat)
    requires Linked(db) && i < |lines| && lines[i].Some?
    ensures RowOf(lines[i].value, session) in IngestLines(db, lines, session).deliveries
  {
    hide InsertMessage, Linked;
    var init, last := lines[..|lines| - 1], lines[|lines| - 1];
    IngestOnlyAdds(db, init, session);
    var before := IngestLines(db, init, session);
    if last.Some? {
      InsertOnlyAdds(before, Ingested(last.value, session), {}, map[]);
    }
    if i < |init| {
      IngestAddsRow(db, init, session, i);
    } else {
      var m := Ingested(last.value, session);
      assert m.to in Recipients(m, {});
    }
  }

  /** What seeding adds: the addressee's row of every message without one, done exactly when the message was. */
  lemma SeededRow(db: Db, k: Key)
    ensures k in Seed(db).deliveries <==>
            k in db.deliveries || (k.0 in db.messages && k.1 == db.messages[k.0].message.to)
    ensures k in db.deliveries ==> Seed(db).deliveries[k] == db.deliveries[k]
    ensures k in Seed(db).deliveries && k !in db.deliveries ==>
      Seed(db).deliveries[k] == DeliveryRow(db.messages[k.0].deliveredAt, None)
    ensures Seed(db).messages == db.messages
  {
  }

  /** After the first start-up the seeding statement finds every row present. */
  lemma SeedChangesNothing(db: Db)
    requires Linked(db)
    ensures Seed(db) == db
  {
    assert Seed(db).deliveries == db.deliveries;
  }

  lemma OnlyAddsKeepsInv(s: State, s': State)
    requires Inv(s) && Linked(s'.db) && OnlyAdds(s.db, s'.db)
    requires s'.notified == s.notified && s'.dismissed == s.dismissed && s'.legacy == s.legacy
    ensures Inv(s')
  {
  }

  lemma KeysForDistinct(ids: seq<MessageId>, session: Session)
    requires Distinct(ids)
    ensures Distinct(KeysFor(ids, session))
    ensures forall k :: k in KeysFor(ids, session) <==> k.1 == session && k.0 in ids
  {
    var keys := KeysFor(ids, session);
    forall k: Key ensures k in keys <==> k.1 == session && k.0 in ids {
      if k.1 == session && k.0 in ids {
        var i :| 0 <= i < |ids| && ids[i] == k.0;
        assert keys[i] == k;
      }
    }
  }

  lemma MarkAllDone(db: Db, ids: set<MessageId>, session: Session, now: Time, k: Key)
    requires k in db.deliveries
    ensures k in MarkAll(db, ids, session, now).deliveries
    ensures IsDone(MarkAll(db, ids, session, now), k) <==> IsDone(db, k) || (k.1 == session && k.0 in ids)
  {
  }

  /** Marking stamps the rows of `ids` for one session, and the message rows, and changes nothing else. */
  lemma MarkAllStamps(db: Db, ids: set<MessageId>, session: Session, now: Time)
    ensures var after := MarkAll(db, ids, session, now);
      && after.deliveries.Keys == db.deliveries.Keys && after.messages.Keys == db.messages.Keys
      && (forall k :: k in db.deliveries && k.1 == session && k.0 in ids ==>
            after.deliveries[k] == DeliveryRow(Some(now), db.deliveries[k].gatedBy))
      && (forall k :: k in db.deliveries && !(k.1 == session && k.0 in ids) ==>
            after.deliveries[k] == db.deliveries[k])
      && (forall id :: id in db.messages ==>
            after.messages[id] == MessageRow(db.messages[id].message,
                                             if id in ids then Some(now) else db.messages[id].deliveredAt))
  {
  }

  lemma MarkAllLinked(db: Db, ids: set<MessageId>, session: Session, now: Time)
    requires Linked(db)
    ensures Linked(MarkAll(db, ids, session, now))
  {
  }

  lemma NotifyKeepsInv(s: State, e: Event)
    requires Inv(s) && Enabled(s, e) && e.Notify?
    ensures Inv(Next(s, e))
  {
    hide KeysFor, MarkAll, IsDone;
    var keys := KeysFor(e.ids, e.session);
    KeysForDistinct(e.ids, e.session);
    PendingNotDone(s.db, e.ids, e.session);
    DistinctConcat(s.notified, keys);
    MarkAllLinked(s.db, Ids(e.ids), e.session, e.now);
    forall k | k in s.db.deliveries
      ensures IsDone(Next(s, e).db, k) <==> IsDone(s.db, k) || k in keys
      ensures k in Next(s, e).db.deliveries
    {
      MarkAllDone(s.db, Ids(e.ids), e.session, e.now, k);
    }
    assert MarkAll(s.db, Ids(e.ids), e.session, e.now).deliveries.Keys == s.db.deliveries.Keys by {
      MarkAllKeys(s.db, Ids(e.ids), e.session, e.now);
    }
  }

  lemma MarkAllKeys(db: Db, ids: set<MessageId>, session: Session, now: Time)
    ensures MarkAll(db, ids, session, now).deliveries.Keys == db.deliveries.Keys
  {
  }

  lemma PendingNotDone(db: Db, ids: seq<MessageId>, session: Session)
    requires IsPendingList(ids, db, session, POLL_LIMIT)
    ensures forall id :: id in ids ==> (id, session) in db.deliveries && !IsDone(db, (id, session))
  {
    forall id | id in ids ensures (id, session) in db.deliveries && !IsDone(db, (id, session)) {
      assert IsPending(db, (id, session));
    }
  }

  lemma DismissKeepsInv(s: State, session: Session, chosen: Message -> bool, now: Time)
    requires Inv(s)
    ensures Inv(s.(db := Dismiss(s.db, session, chosen, now),
                   dismissed := s.dismissed + Dismissed(s.db, session, chosen)))
  {
  }

  lemma StepKeepsInv(s: State, e: Event)
    requires Inv(s) && Enabled(s, e)
    ensures Inv(Next(s, e))
  {
    hide Inv, InsertMessage, IngestLines, MarkAll, Dismiss, Dismissed, Seed, IsPendingList;
    match e {
      case Send(m, extra, gates) =>
        InvLinked(s);
        InsertOnlyAdds(s.db, m, extra, gates);
        OnlyAddsKeepsInv(s, Next(s, e));
      case Append(_, _) =>
        InvLinked(s);
        OnlyAddsKeepsInv(s, Next(s, e));
      case Start(_) =>
        InvLinked(s);
        SeedChangesNothing(s.db);
        OnlyAddsKeepsInv(s, Next(s, e));
      case Ingest(session) =>
        InvLinked(s);
        if |Lines(s, session)| > s.offsets[session] {
          IngestOnlyAdds(s.db, Lines(s, session)[s.offsets[session]..], session);
          OnlyAddsKeepsInv(s, Next(s, e));
        }
      case Notify(_, _, _) => NotifyKeepsInv(s, e);
      case Decline(session, thread, now) => DismissKeepsInv(s, session, InThread(thread), now);
      case RejectRouting(session, thread, now) => DismissKeepsInv(s, session, RoutedInThread(thread, session), now);
    }
  }

  lemma InvLinked(s: State)
    requires Inv(s)
    ensures Linked(s.db) && OnlyAdds(s.db, s.db)
  {
  }

  lemma {:induction false} RunKeepsInv(ss: seq<State>, es: seq<Event>, n: nat)
    requires IsRun(ss, es) && n < |ss|
    ensures Inv(ss[n])
  {
    if n == 0 {
    } else {
      RunKeepsInv(ss, es, n - 1);
      StepKeepsInv(ss[n - 1], es[n - 1]);
    }
  }

  /**
   Over any run each (message, recipient) pair is notified at most once, and every delivery row is exactly
   one of pending, notified, dismissed and delivered before.
   */
  lemma NotifiedAtMostOnce(ss: seq<State>, es: seq<Event>, n: nat)
    requires IsRun(ss, es) && n < |ss|
    ensures Distinct(ss[n].notified)
    ensures forall k :: k in ss[n].db.deliveries ==>
      && (IsPending(ss[n].db, k) <==> k !in ss[n].notified && k !in ss[n].dismissed && k !in ss[n].legacy)
      && (k in ss[n].notified ==> k !in ss[n].dismissed && k !in ss[n].legacy)
      && (k in ss[n].dismissed ==> k !in ss[n].legacy)
  {
    RunKeepsInv(ss, es, n);
  }

  lemma StepKeepsRows(s: State, e: Event, k: Key)
    requires Linked(s.db) && Enabled(s, e) && k in s.db.deliveries
    ensures k in Next(s, e).db.deliveries
  {
    hide IsPendingList;
    if e.Ingest? && |Lines(s, e.session)| > s.offsets[e.session] {
      IngestOnlyAdds(s.db, Lines(s, e.session)[s.offsets[e.session]..], e.session);
    }
  }

  lemma {:induction false} RowsStay(ss: seq<State>, es: seq<Event>, i: nat, n: nat, k: Key)
    requires IsRun(ss, es) && i <= n < |ss| && k in ss[i].db.deliveries
    ensures k in ss[n].db.deliveries
  {
    hide Enabled, Next, Init, Linked, Accounted;
    if i == n {
    } else {
      RowsStay(ss, es, i, n - 1, k);
      RunKeepsInv(ss, es, n - 1);
      StepKeepsRows(ss[n - 1], es[n - 1], k);
    }
  }

  /** No message sent through the database is lost: each recipient's row is pending, notified or dismissed. */
  lemma SentIsNeverLost(ss: seq<State>, es: seq<Event>, i: nat, n: nat, r: Session)
    requires IsRun(ss, es) && i < n < |ss| && es[i].Send? && r in Recipients(es[i].m, es[i].extra)
    ensures var k := (es[i].m.id, r);
      k in ss[n].db.deliveries
      && (IsPending(ss[n].db, k) || k in ss[n].notified || k in ss[n].dismissed || k in ss[n].legacy)
  {
    RunKeepsInv(ss, es, i);
    InsertOnlyAdds(ss[i].db, es[i].m, es[i].extra, es[i].gates);
    RowsStay(ss, es, i + 1, n, (es[i].m.id, r));
    NotifiedAtMostOnce(ss, es, n);
  }

  /** A poll takes the polled messages, and nothing else, out of the session's pending set. */
  lemma PollDrains(s: State, e: Event)
    requires Inv(s) && Enabled(s, e) && e.Notify?
    ensures PendingIds(Next(s, e).db, e.session) == PendingIds(s.db, e.session) - Ids(e.ids)
    ensures |PendingIds(Next(s, e).db, e.session)| ==
            if |PendingIds(s.db, e.session)| <= 20 then 0 else |PendingIds(s.db, e.session)| - 20
  {
    var before, after := PendingIds(s.db, e.session), PendingIds(Next(s, e).db, e.session);
    var taken := Ids(e.ids);
    forall id ensures id in after <==> id in before && id !in taken {
      PendingAfterMark(s.db, taken, e.session, e.now, id);
    }
    DistinctCardinality(e.ids);
    assert taken <= before && after == before - taken;
  }

  lemma PendingAfterMark(db: Db, ids: set<MessageId>, session: Session, now: Time, id: MessageId)
    ensures id in PendingIds(MarkAll(db, ids, session, now), session) <==> id in PendingIds(db, session) && id !in ids
  {
    assert id in PendingIds(db, session) <==> IsPending(db, (id, session));
    var db' := MarkAll(db, ids, session, now);
    assert id in PendingIds(db', session) <==> IsPending(db', (id, session));
  }

  // ---- Messages that exist only in an inbox file ----

  /**
   Ingesting gives every line from the offset on a delivery row, for its addressee or for the session that reads,
   and stores a new message as its line says.
   */
  lemma IngestedFromOffset(s: State, session: Session, i: nat, m: Message)
    requires Inv(s) && session in s.offsets && s.offsets[session] <= i < |Lines(s, session)|
    requires Lines(s, session)[i] == Some(m)
    ensures var to := if m.to == "" then session else m.to;
            var after := Next(s, Ingest(session)).db;
      && (m.id, to) in after.deliveries
      && (m.id !in s.db.messages
          && (forall j :: s.offsets[session] <= j < i ==> !Carries(Lines(s, session)[j], m.id)) ==>
            IsStored(after, m, to))
  {
    hide IngestLines;
    var lines, at := Lines(s, session)[s.offsets[session]..], i - s.offsets[session];
    assert lines[at] == Lines(s, session)[i];
    IngestAddsRow(s.db, lines, session, at);
    if m.id !in s.db.messages
       && (forall j :: s.offsets[session] <= j < i ==> !Carries(Lines(s, session)[j], m.id)) {
      IngestStores(s.db, lines, session, at, m);
    }
  }

  predicate Carries(line: Option<Message>, id: MessageId) {
    line.Some? && line.value.id == id
  }

  /** The event brings no message with this id. */
  predicate IsSilent(e: Event, id: MessageId) {
    && (e.Send? ==> e.m.id != id)
    && (e.Append? ==> !Carries(e.line, id))
  }

  ghost predicate Unseen(db: Db, id: MessageId) {
    id !in db.messages && forall k :: k in db.deliveries ==> k.0 != id
  }

  /** Any line with this id is line `at` of `session`'s file. */
  ghost predicate OnlyLine(s: State, session: Session, at: nat, id: MessageId) {
    forall r, p :: 0 <= p < |Lines(s, r)| && Carries(Lines(s, r)[p], id) ==> r == session && p == at
  }

  ghost predicate NoLine(s: State, id: MessageId) {
    forall r, p :: 0 <= p < |Lines(s, r)| ==> !Carries(Lines(s, r)[p], id)
  }

  ghost predicate OffsetsInFile(s: State) {
    forall r :: r in s.offsets ==> s.offsets[r] <= |Lines(s, r)|
  }

  /** `read`: the session has ingested line `at`; `started`: it has started since the line was appended. */
  ghost predicate Tracked(s: State, session: Session, at: nat, m: Message, read: bool, started: bool) {
    && at < |Lines(s, session)| && Lines(s, session)[at] == Some(m) && OnlyLine(s, session, at, m.id)
    && (started ==> session in s.offsets && s.offsets[session] > at)
    && (!read && !started && session in s.offsets ==> s.offsets[session] <= at)
    && (if read then RowOf(m, session) in s.db.deliveries else Unseen(s.db, m.id))
  }

  lemma {:induction false} IngestUnseen(db: Db, lines: seq<Option<Message>>, session: Session, id: MessageId)
    requires Unseen(db, id) && forall i :: 0 <= i < |lines| ==> !Carries(lines[i], id)
    ensures Unseen(IngestLines(db, lines, session), id)
  {
    if lines == [] {
    } else {
      IngestUnseen(db, lines[..|lines| - 1], session, id);
      assert !Carries(lines[|lines| - 1], id);
    }
  }

  lemma LinesAfter(s: State, e: Event, r: Session)
    requires Enabled(s, e)
    ensures Lines(Next(s, e), r) ==
            if e.Append? && e.session == r then Lines(s, r) + [e.line] else Lines(s, r)
  {
    hide IsPendingList, IngestLines, InsertMessage, MarkAll, Dismiss, Dismissed, Seed;
  }

  lemma StepKeepsUnseen(s: State, e: Event, id: MessageId)
    requires Linked(s.db) && Enabled(s, e) && Unseen(s.db, id) && IsSilent(e, id)
    requires e.Ingest? ==> forall p :: s.offsets[e.session] <= p < |Lines(s, e.session)| ==>
               !Carries(Lines(s, e.session)[p], id)
    ensures Unseen(Next(s, e).db, id)
  {
    hide IsPendingList, IngestLines;
    if e.Ingest? && |Lines(s, e.session)| > s.offsets[e.session] {
      IngestUnseen(s.db, Lines(s, e.session)[s.offsets[e.session]..], e.session, id);
    }
  }

  lemma StepKeepsOffsets(s: State, e: Event)
    requires OffsetsInFile(s) && Enabled(s, e)
    ensures OffsetsInFile(Next(s, e))
  {
    hide IsPendingList, IngestLines, InsertMessage, MarkAll, Dismiss, Dismissed, Seed;
    var s' := Next(s, e);
    forall r | r in s'.offsets ensures s'.offsets[r] <= |Lines(s', r)| {
      LinesAfter(s, e, r);
    }
  }

  lemma StepKeepsNoLine(s: State, e: Event, id: MessageId)
    requires NoLine(s, id) && Enabled(s, e) && IsSilent(e, id)
    ensures NoLine(Next(s, e), id)
  {
    hide IsPendingList, Next, Carries;
    forall r, p | 0 <= p < |Lines(Next(s, e), r)| ensures !Carries(Lines(Next(s, e), r)[p], id) {
      LinesAfter(s, e, r);
    }
  }

  lemma StepKeepsOnlyLine(s: State, e: Event, session: Session, at: nat, id: MessageId)
    requires OnlyLine(s, session, at, id) && Enabled(s, e) && IsSilent(e, id)
    ensures OnlyLine(Next(s, e), session, at, id)
  {
    hide IsPendingList, Next, Carries;
    forall r, p | 0 <= p < |Lines(Next(s, e), r)| && Carries(Lines(Next(s, e), r)[p], id)
      ensures r == session && p == at
    {
      LinesAfter(s, e, r);
    }
  }

  lemma OffsetAfter(s: State, e: Event, session: Session)
    requires Enabled(s, e)
    ensures var before, after := s.offsets, Next(s, e).offsets;
      if e == Start(session) || (e == Ingest(session) && |Lines(s, session)| > before[session])
      then session in after && after[session] == |Lines(s, session)|
      else (session in after <==> session in before) && (session in after ==> after[session] == before[session])
  {
    hide IsPendingList, IngestLines, InsertMessage, MarkAll, Dismiss, Dismissed, Seed;
  }

  lemma StepTracks(s: State, e: Event, session: Session, at: nat, m: Message, read: bool, started: bool)
    requires Linked(s.db) && Tracked(s, session, at, m, read, started)
    requires Enabled(s, e) && IsSilent(e, m.id)
    ensures Tracked(Next(s, e), session, at, m, read || (e == Ingest(session) && !started),
                    started || e == Start(session))
  {
    hide IsPendingList, IngestLines, InsertMessage, MarkAll, Dismiss, Dismissed, Seed, Linked, Unseen, OnlyLine;
    LinesAfter(s, e, session);
    OffsetAfter(s, e, session);
    StepKeepsOnlyLine(s, e, session, at, m.id);
    if read {
      StepKeepsRows(s, e, RowOf(m, session));
    } else if e == Ingest(session) && !started {
      var lines := Lines(s, session)[s.offsets[session]..];
      assert lines[at - s.offsets[session]] == Some(m);
      IngestAddsRow(s.db, lines, session, at - s.offsets[session]);
    } else {
      if e.Ingest? {
        UnreadLines(s, e.session, session, at, m.id);
      }
      StepKeepsUnseen(s, e, m.id);
    }
  }

  lemma UnreadLines(s: State, r: Session, session: Session, at: nat, id: MessageId)
    requires OnlyLine(s, session, at, id) && r in s.offsets && (r == session ==> s.offsets[r] > at)
    ensures forall p :: s.offsets[r] <= p < |Lines(s, r)| ==> !Carries(Lines(s, r)[p], id)
  {
  }

  /** The id occurs nowhere at first and no event but number `i` brings it. */
  ghost predicate OnlyEvent(ss: seq<State>, es: seq<Event>, i: nat, id: MessageId)
    requires |ss| > 0
  {
    && Unseen(ss[0].db, id) && NoLine(ss[0], id)
    && forall j :: 0 <= j < |es| && j != i ==> IsSilent(es[j], id)
  }

  lemma {:induction false} BeforeTheLine(ss: seq<State>, es: seq<Event>, i: nat, n: nat, id: MessageId)
    requires IsRun(ss, es) && n <= i < |ss| && OnlyEvent(ss, es, i, id)
    ensures Unseen(ss[n].db, id) && NoLine(ss[n], id) && OffsetsInFile(ss[n])
  {
    hide Enabled, Next, Init, Linked, Accounted, Unseen, NoLine, OffsetsInFile;
    if n == 0 {
      NoOffsets(ss, es);
    } else {
      BeforeTheLine(ss, es, i, n - 1, id);
      RunKeepsInv(ss, es, n - 1);
      StepKeepsOffsets(ss[n - 1], es[n - 1]);
      StepKeepsNoLine(ss[n - 1], es[n - 1], id);
      NoLineUnread(ss[n - 1], es[n - 1], id);
      StepKeepsUnseen(ss[n - 1], es[n - 1], id);
    }
  }

  lemma NoOffsets(ss: seq<State>, es: seq<Event>)
    requires IsRun(ss, es)
    ensures OffsetsInFile(ss[0])
  {
  }

  lemma NoLineUnread(s: State, e: Event, id: MessageId)
    requires NoLine(s, id) && Enabled(s, e)
    ensures e.Ingest? ==> forall p :: s.offsets[e.session] <= p < |Lines(s, e.session)| ==>
              !Carries(Lines(s, e.session)[p], id)
  {
  }

  /** The line is there right after it was appended, unread. */
  lemma AppendTracks(s: State, session: Session, m: Message)
    requires Unseen(s.db, m.id) && NoLine(s, m.id) && OffsetsInFile(s)
    ensures Tracked(Next(s, Append(session, Some(m))), session, |Lines(s, session)|, m, false, false)
  {
    hide Unseen;
    var s' := Next(s, Append(session, Some(m)));
    forall r, p | 0 <= p < |Lines(s', r)| && Carries(Lines(s', r)[p], m.id)
      ensures r == session && p == |Lines(s, session)|
    {
      LinesAfter(s, Append(session, Some(m)), r);
    }
  }

  ghost predicate StartedBetween(es: seq<Event>, i: nat, n: nat, session: Session)
    requires n <= |es|
  {
    exists j :: i < j < n && es[j] == Start(session)
  }

  /** Between events `i` and `n` the session ingested its file before it started anew. */
  ghost predicate IngestedBetween(es: seq<Event>, i: nat, n: nat, session: Session)
    requires n <= |es|
  {
    exists j :: i < j < n && es[j] == Ingest(session) && !StartedBetween(es, i, j, session)
  }

  lemma OneMoreBetween(es: seq<Event>, i: nat, n: nat, session: Session)
    requires i < n < |es|
    ensures StartedBetween(es, i, n + 1, session) <==>
            StartedBetween(es, i, n, session) || es[n] == Start(session)
    ensures IngestedBetween(es, i, n + 1, session) <==>
            IngestedBetween(es, i, n, session) || (es[n] == Ingest(session) && !StartedBetween(es, i, n, session))
  {
    if IngestedBetween(es, i, n, session) {
      var j: nat :| i < j < n && es[j] == Ingest(session) && !StartedBetween(es, i, j, session);
    }
    if IngestedBetween(es, i, n + 1, session) {
      var j: nat :| i < j < n + 1 && es[j] == Ingest(session) && !StartedBetween(es, i, j, session);
    }
  }

  lemma {:induction false} LineIsTracked(
    ss: seq<State>, es: seq<Event>, i: nat, n: nat, session: Session, m: Message)
    requires IsRun(ss, es) && i < n < |ss| && es[i] == Append(session, Some(m)) && OnlyEvent(ss, es, i, m.id)
    ensures Tracked(ss[n], session, |Lines(ss[i], session)|, m, IngestedBetween(es, i, n, session),
                    StartedBetween(es, i, n, session))
  {
    hide Enabled, Next, Init, Linked, Accounted, Unseen, NoLine, OffsetsInFile, Tracked, StartedBetween,
      IngestedBetween;
    if n == i + 1 {
      BeforeTheLine(ss, es, i, i, m.id);
      AppendTracks(ss[i], session, m);
      NothingBetween(es, i, session);
    } else {
      LineIsTracked(ss, es, i, n - 1, session, m);
      RunKeepsInv(ss, es, n - 1);
      OneMoreBetween(es, i, n - 1, session);
      StepTracks(ss[n - 1], es[n - 1], session, |Lines(ss[i], session)|, m,
                 IngestedBetween(es, i, n - 1, session), StartedBetween(es, i, n - 1, session));
    }
  }

  lemma NothingBetween(es: seq<Event>, i: nat, session: Session)
    requires i < |es|
    ensures !StartedBetween(es, i, i + 1, session) && !IngestedBetween(es, i, i + 1, session)
  {
  }

  /**
   A message that only an inbox file carries has its delivery row exactly when its session ingested the file
   after the line was appended and before it next started. A session that starts first, be it after a crash or
   within the two seconds before its next poll, skips the line.
   */
  lemma FileOnlyMessageArrives(ss: seq<State>, es: seq<Event>, i: nat, n: nat, session: Session, m: Message)
    requires IsRun(ss, es) && i < n < |ss| && es[i] == Append(session, Some(m)) && OnlyEvent(ss, es, i, m.id)
    ensures RowOf(m, session) in ss[n].db.deliveries <==> IngestedBetween(es, i, n, session)
  {
    hide Enabled, Next, Init, OnlyEvent, OnlyLine, StartedBetween, IngestedBetween;
    LineIsTracked(ss, es, i, n, session, m);
  }

  /** A line that a start has skipped stays skipped for the rest of the run. */
  lemma FileOnlyMessageSkipped(
    ss: seq<State>, es: seq<Event>, i: nat, j: nat, n: nat, session: Session, m: Message)
    requires IsRun(ss, es) && i < j < n < |ss| && es[i] == Append(session, Some(m)) && OnlyEvent(ss, es, i, m.id)
    requires es[j] == Start(session) && !IngestedBetween(es, i, j, session)
    ensures RowOf(m, session) !in ss[n].db.deliveries
  {
    hide Enabled, Next, Init, OnlyEvent, StartedBetween, IngestedBetween;
    FileOnlyMessageArrives(ss, es, i, n, session, m);
    NotIngestedAnyMore(es, i, j, n, session);
  }

  lemma NotIngestedAnyMore(es: seq<Event>, i: nat, j: nat, n: nat, session: Session)
    requires i < j < n <= |es| && es[j] == Start(session) && !IngestedBetween(es, i, j, session)
    ensures !IngestedBetween(es, i, n, session)
  {
    forall k: nat | i < k < n && es[k] == Ingest(session) ensures StartedBetween(es, i, k, session) {
      if k < j {
        assert !(es[k] == Ingest(session) && !StartedBetween(es, i, k, session));
      }
    }
  }

  // ---- Every pending message is polled ----

  /** The pending messages of `session`, other than `id`, that are not stamped later. */
  ghost function Ahead(db: Db, session: Session, id: MessageId): set<MessageId> {
    set p | p in PendingIds(db, session) && p != id && SentAt(db, p) <= SentAt(db, id)
  }

  ghost function Polls(es: seq<Event>, session: Session, i: nat, n: nat): nat
    requires i <= n <= |es|
  {
    if n == i then 0
    else Polls(es, session, i, n - 1) + (if es[n - 1].Notify? && es[n - 1].session == session then 1 else 0)
  }

  /** What step `s` to `s'` makes pending for `session` is stamped later than `id`. */
  ghost predicate ArrivalsLater(s: State, s': State, session: Session, id: MessageId) {
    forall p :: p in PendingIds(s'.db, session) && p !in PendingIds(s.db, session) ==>
      SentAt(s'.db, p) > SentAt(s.db, id)
  }

  lemma PendingIsKey(db: Db, session: Session, id: MessageId)
    ensures id in PendingIds(db, session) <==> IsPending(db, (id, session))
  {
  }

  /** No step changes when a message was sent. */
  lemma StepKeepsStamps(s: State, e: Event, id: MessageId)
    requires Linked(s.db) && Enabled(s, e) && id in s.db.messages
    ensures id in Next(s, e).db.messages && SentAt(Next(s, e).db, id) == SentAt(s.db, id)
  {
    hide IsPendingList;
    if e.Ingest? && |Lines(s, e.session)| > s.offsets[e.session] {
      IngestOnlyAdds(s.db, Lines(s, e.session)[s.offsets[e.session]..], e.session);
    }
  }

  /** A poll that does not take `id` takes twenty messages ahead of it. */
  lemma PollTakesAhead(db: Db, session: Session, ids: seq<MessageId>, id: MessageId)
    requires IsPendingList(ids, db, session, POLL_LIMIT) && id in PendingIds(db, session) && id !in ids
    ensures |ids| == POLL_LIMIT && Ids(ids) <= Ahead(db, session, id) && |Ids(ids)| == POLL_LIMIT
  {
    hide PendingIds, SentAt;
    DistinctCardinality(ids);
    assert Ids(ids) <= PendingIds(db, session) - {id};
    SubsetSize(Ids(ids), PendingIds(db, session) - {id});
    forall p | p in Ids(ids) ensures p in Ahead(db, session, id) {
      var j :| 0 <= j < |ids| && ids[j] == p;
    }
  }

  lemma AheadShrinks(s: State, e: Event, session: Session, id: MessageId)
    requires Inv(s) && Enabled(s, e) && ArrivalsLater(s, Next(s, e), session, id)
    requires id in PendingIds(s.db, session) && id in PendingIds(Next(s, e).db, session)
    ensures |Ahead(Next(s, e).db, session, id)| + (if e.Notify? && e.session == session then POLL_LIMIT else 0)
            <= |Ahead(s.db, session, id)|
  {
    hide PendingIds, SentAt, IsPendingList, Next, Linked, Accounted;
    var s' := Next(s, e);
    var before, after := Ahead(s.db, session, id), Ahead(s'.db, session, id);
    PendingHasMessage(s.db, session, id);
    StepKeepsStamps(s, e, id);
    forall p | p in after ensures p in before {
      PendingHasMessage(s.db, session, p);
      if p in PendingIds(s.db, session) {
        StepKeepsStamps(s, e, p);
      }
    }
    if e.Notify? && e.session == session {
      NotifyTakes(s, e, id);
      PollTakesAhead(s.db, session, e.ids, id);
      forall p | p in after ensures p !in Ids(e.ids) {
        NotifyTakes(s, e, p);
      }
      SubsetSize(after, before - Ids(e.ids));
    } else {
      SubsetSize(after, before);
    }
  }

  lemma NotifyTakes(s: State, e: Event, id: MessageId)
    requires Enabled(s, e) && e.Notify?
    ensures IsPendingList(e.ids, s.db, e.session, POLL_LIMIT)
    ensures id in PendingIds(Next(s, e).db, e.session) ==> id !in Ids(e.ids) && id !in e.ids
  {
    PendingAfterMark(s.db, Ids(e.ids), e.session, e.now, id);
  }

  lemma PendingHasMessage(db: Db, session: Session, id: MessageId)
    ensures id in PendingIds(db, session) ==> id in db.messages
  {
  }

  lemma {:induction false} AheadAfterPolls(
    ss: seq<State>, es: seq<Event>, i: nat, n: nat, session: Session, id: MessageId)
    requires IsRun(ss, es) && i <= n < |ss|
    requires forall j :: i <= j < n ==> ArrivalsLater(ss[j], ss[j + 1], session, id)
    requires forall j :: i <= j <= n ==> id in PendingIds(ss[j].db, session)
    ensures |Ahead(ss[n].db, session, id)| + POLL_LIMIT * Polls(es, session, i, n) <= |Ahead(ss[i].db, session, id)|
  {
    hide Enabled, Next, Init, Inv, PendingIds, Ahead, ArrivalsLater;
    if n == i {
    } else {
      AheadAfterPolls(ss, es, i, n - 1, session, id);
      RunKeepsInv(ss, es, n - 1);
      assert ss[n] == Next(ss[n - 1], es[n - 1]) && ArrivalsLater(ss[n - 1], ss[n], session, id);
      assert id in PendingIds(ss[n - 1].db, session) && id in PendingIds(ss[n].db, session);
      AheadShrinks(ss[n - 1], es[n - 1], session, id);
    }
  }

  /** Once a message is no longer pending it never is again. */
  lemma {:induction false} DoneStays(ss: seq<State>, es: seq<Event>, i: nat, n: nat, k: Key)
    requires IsRun(ss, es) && i <= n < |ss| && k in ss[i].db.deliveries && !IsPending(ss[i].db, k)
    ensures k in ss[n].db.deliveries && !IsPending(ss[n].db, k)
  {
    hide Enabled, Next, Init, Linked, Accounted;
    if n == i {
    } else {
      DoneStays(ss, es, i, n - 1, k);
      RunKeepsInv(ss, es, n - 1);
      RunKeepsInv(ss, es, n);
      StepKeepsDone(ss[n - 1], es[n - 1], k);
    }
  }

  lemma StepKeepsDone(s: State, e: Event, k: Key)
    requires Inv(s) && Enabled(s, e) && k in s.db.deliveries && !IsPending(s.db, k)
    ensures k in Next(s, e).db.deliveries && !IsPending(Next(s, e).db, k)
  {
    hide IsPendingList, Accounted;
    assert IsDone(s.db, k);
    if e.Ingest? && |Lines(s, e.session)| > s.offsets[e.session] {
      IngestOnlyAdds(s.db, Lines(s, e.session)[s.offsets[e.session]..], e.session);
    }
  }

  /**
   While nothing older arrives for its session, a pending message with `r` others not stamped later is
   notified or dismissed by the time the session has polled r/20 + 1 times.
   */
  lemma PendingIsPolled(ss: seq<State>, es: seq<Event>, i: nat, n: nat, session: Session, id: MessageId)
    requires IsRun(ss, es) && i <= n < |ss| && id in PendingIds(ss[i].db, session)
    requires forall j :: i <= j < n ==> ArrivalsLater(ss[j], ss[j + 1], session, id)
    requires Polls(es, session, i, n) >= |Ahead(ss[i].db, session, id)| / POLL_LIMIT + 1
    ensures (id, session) in ss[n].notified || (id, session) in ss[n].dismissed
  {
    hide Enabled, Next, Init, PendingIds, Ahead, ArrivalsLater, Polls, IsPendingList;
    PendingIsKey(ss[i].db, session, id);
    NotifiedAtMostOnce(ss, es, i);
    if j: nat :| i <= j <= n && id !in PendingIds(ss[j].db, session) {
      PendingIsKey(ss[j].db, session, id);
      RowsStay(ss, es, i, j, (id, session));
      DoneStays(ss, es, j, n, (id, session));
    } else {
      AheadAfterPolls(ss, es, i, n, session, id);
    }
    RowsStay(ss, es, i, n, (id, session));
    NotifiedAtMostOnce(ss, es, n);
    LegacyStays(ss, es, i, n);
  }

  /**
   A line for its own session, or for nobody, that no other event carries: once ingested it is notified to or
   dismissed for that session within r/20 + 1 polls, with `r` pending messages not stamped later.
   */
  lemma FileOnlyMessageIsPolled(
    ss: seq<State>, es: seq<Event>, i: nat, k: nat, n: nat, session: Session, m: Message)
    requires IsRun(ss, es) && i < k <= n < |ss| && es[i] == Append(session, Some(m)) && OnlyEvent(ss, es, i, m.id)
    requires (m.to == "" || m.to == session) && IngestedBetween(es, i, k, session)
    requires forall j :: k <= j < n ==> ArrivalsLater(ss[j], ss[j + 1], session, m.id)
    requires Polls(es, session, k, n) >= |Ahead(ss[k].db, session, m.id)| / POLL_LIMIT + 1
    ensures (m.id, session) in ss[n].notified || (m.id, session) in ss[n].dismissed
  {
    hide Enabled, Next, Init, PendingIds, Ahead, ArrivalsLater, Polls, StartedBetween, IngestedBetween, NoLine;
    FileOnlyMessageArrives(ss, es, i, k, session, m);
    PendingIsKey(ss[k].db, session, m.id);
    if IsPending(ss[k].db, (m.id, session)) {
      PendingIsPolled(ss, es, k, n, session, m.id);
    } else {
      DoneStays(ss, es, k, n, (m.id, session));
      NotifiedAtMostOnce(ss, es, n);
      LegacyStays(ss, es, 0, n);
      RunKeepsInv(ss, es, 0);
    }
  }

  lemma {:induction false} LegacyStays(ss: seq<State>, es: seq<Event>, i: nat, n: nat)
    requires IsRun(ss, es) && i <= n < |ss|
    ensures ss[n].legacy == ss[i].legacy
  {
    hide Init, IsPendingList;
    if n == i {
    } else {
      LegacyStays(ss, es, i, n - 1);
    }
  }
}
