/**
 The peer mesh of one or more Enterprises: every L2 server keeps a peer table, joins through a seed's hello
 endpoint and learns more from announce floods and signature polls. Any message may be lost or delayed.
 */
module Mesh {
  import opened Prelude

  type L2Id = string

  /** What an L2 says about itself in a hello: it is fixed by its deployment. */
  datatype Node = Node(enterprise: string, group: string, endpoint: string, key: Option<string>)

  datatype Signature = Signature(
    centroid: Option<seq<int>>, bloom: Option<seq<int>>, kuCount: int, domainCount: int, model: Option<string>)

  const NO_SIGNATURE := Signature(None, None, 0, 0, None)

  datatype Peer = Peer(
    enterprise: string, group: string, endpoint: string, key: Option<string>, signature: Signature, signed: bool)

  type Table = map<L2Id, Peer>

  datatype Entry = Entry(id: L2Id, peer: Peer)

  /** A row of the peer table, inserted or updated; a stored key or signature is never cleared by a hello. */
  function Upsert(t: Table, id: L2Id, p: Peer): Table {
    if id !in t then t[id := p]
    else
      var key := if p.key.Some? then p.key else t[id].key;
      t[id := if p.signed then p.(key := key)
              else t[id].(enterprise := p.enterprise, group := p.group, endpoint := p.endpoint, key := key)]
  }

  /** The row a hello or an announce carries for a node. */
  function HelloPeer(n: Node): Peer {
    Peer(n.enterprise, n.group, n.endpoint, n.key, NO_SIGNATURE, false)
  }

  /** The row a signature poll at `polled` yields for the node that answered. */
  function SignedPeer(n: Node, polled: string, signature: Signature): Peer {
    Peer(n.enterprise, n.group, if n.endpoint != "" then n.endpoint else polled, None, signature, true)
  }

  /** A row as a bootstrapping L2 absorbs it: counts travel, the signature itself does not. */
  function WirePeer(p: Peer): Peer {
    p.(signature := p.signature.(centroid := None, bloom := None), signed := false)
  }

  // ---- Protocol ----

  /** `admits` holds the (caller, callee) pairs whose bearer authentication succeeds. */
  datatype World = World(nodes: map<L2Id, Node>, admits: set<(L2Id, L2Id)>)

  /**
   What has happened so far that a later step may act on. Facts are never removed, so every message may
   also be acted on late, repeatedly or not at all.
   */
  datatype Fact =
    | HelloSent(caller: L2Id, callee: L2Id)
    | HelloStored(caller: L2Id, callee: L2Id)
    | Replied(caller: L2Id, seed: L2Id, rows: seq<Entry>)
    | Absorbing(caller: L2Id, seed: L2Id, rows: seq<Entry>, next: nat)
    | Joined(caller: L2Id, seed: L2Id, rows: seq<Entry>)
    | Announced(about: L2Id, callee: L2Id)

  datatype State = State(tables: map<L2Id, Table>, facts: set<Fact>)

  datatype Event =
    | SendHello(caller: L2Id, callee: L2Id)
    | ReceiveHello(caller: L2Id, callee: L2Id)
    | Reply(caller: L2Id, callee: L2Id, listing: seq<Entry>)
    | StartAbsorbing(caller: L2Id, seed: L2Id, rows: seq<Entry>)
    | AbsorbRow(caller: L2Id, seed: L2Id, rows: seq<Entry>, next: nat)
    | FinishJoin(caller: L2Id, seed: L2Id, rows: seq<Entry>)
    | ReceiveAnnounce(about: L2Id, callee: L2Id)
    | PollSignature(caller: L2Id, peer: L2Id, responder: L2Id, signature: Signature)

  /** `l` lists, in some order, the rows of `t` that belong to `enterprise`. */
  ghost predicate IsListing(l: seq<Entry>, t: Table, enterprise: string) {
    && (forall i, j :: 0 <= i < j < |l| ==> l[i].id != l[j].id)
    && (forall e :: e in l <==> e.id in t && t[e.id] == e.peer && e.peer.enterprise == enterprise)
  }

  /** The rows a seed replies with: its listing, then itself. */
  function ReplyRows(listing: seq<Entry>, seed: L2Id, n: Node): seq<Entry> {
    listing + [Entry(seed, HelloPeer(n))]
  }

  /** The L2s the announce flood after a hello reaches: whoever answers at a listed peer's endpoint. */
  ghost function FloodTargets(w: World, listing: seq<Entry>, joiner: L2Id, seed: L2Id): set<L2Id> {
    set r | r in w.nodes && exists e :: e in listing && e.id != joiner && e.id != seed
                                        && e.peer.endpoint != "" && e.peer.endpoint == w.nodes[r].endpoint
  }

  predicate SameEnterprise(w: World, a: L2Id, b: L2Id) {
    a in w.nodes && b in w.nodes && w.nodes[a].enterprise == w.nodes[b].enterprise
  }

  ghost predicate Init(w: World, s: State) {
    && s.tables.Keys == w.nodes.Keys
    && (forall a :: a in s.tables ==> s.tables[a] == map[])
    && s.facts == {}
  }

  ghost predicate Enabled(w: World, s: State, e: Event) {
    match e
    case SendHello(a, b) => a in w.nodes && b in w.nodes && (a, b) in w.admits
    case ReceiveHello(a, b) => HelloSent(a, b) in s.facts
    case Reply(a, b, listing) =>
      && HelloStored(a, b) in s.facts
      && b in w.nodes && b in s.tables && IsListing(listing, s.tables[b], w.nodes[b].enterprise)
    case StartAbsorbing(a, b, rows) => Replied(a, b, rows) in s.facts
    case AbsorbRow(a, b, rows, next) => Absorbing(a, b, rows, next) in s.facts && next < |rows|
    case FinishJoin(a, b, rows) => Absorbing(a, b, rows, |rows|) in s.facts
    case ReceiveAnnounce(about, b) => Announced(about, b) in s.facts
    case PollSignature(a, p, r, _) =>
      && a in w.nodes && a in s.tables && p in s.tables[a] && p != a
      && s.tables[a][p].enterprise == w.nodes[a].enterprise && s.tables[a][p].endpoint != ""
      && r in w.nodes && w.nodes[r].endpoint == s.tables[a][p].endpoint && (a, r) in w.admits
  }

  function Store(s: State, owner: L2Id, id: L2Id, p: Peer): State {
    if owner in s.tables then s.(tables := s.tables[owner := Upsert(s.tables[owner], id, p)]) else s
  }

  function Note(s: State, fs: set<Fact>): State {
    s.(facts := s.facts + fs)
  }

  ghost function Next(w: World, s: State, e: Event): State
    requires Enabled(w, s, e)
  {
    match e
    case SendHello(a, b) => Note(s, {HelloSent(a, b)})
    case ReceiveHello(a, b) =>
      // A hello or announce about another Enterprise is refused.
      if SameEnterprise(w, a, b) then Note(Store(s, b, a, HelloPeer(w.nodes[a])), {HelloStored(a, b)}) else s
    case Reply(a, b, listing) =>
      Note(s, {Replied(a, b, ReplyRows(listing, b, w.nodes[b]))}
              + (set r | r in FloodTargets(w, listing, a, b) :: Announced(a, r)))
    case StartAbsorbing(a, b, rows) => Note(s, {Absorbing(a, b, rows, 0)})
    case AbsorbRow(a, b, rows, next) =>
      var s' := if rows[next].id == a then s else Store(s, a, rows[next].id, WirePeer(rows[next].peer));
      Note(s', {Absorbing(a, b, rows, next + 1)})
    case FinishJoin(a, b, rows) => Note(s, {Joined(a, b, rows)})
    case ReceiveAnnounce(about, b) =>
      if SameEnterprise(w, about, b) then Store(s, b, about, HelloPeer(w.nodes[about])) else s
    case PollSignature(a, p, r, signature) =>
      Store(s, a, r, SignedPeer(w.nodes[r], s.tables[a][p].endpoint, signature))
  }

  ghost predicate IsRun(w: World, ss: seq<State>, es: seq<Event>) {
    && |ss| == |es| + 1
    && Init(w, ss[0])
    && forall i :: 0 <= i < |es| ==> Enabled(w, ss[i], es[i]) && ss[i + 1] == Next(w, ss[i], es[i])
  }

  // ---- What every row and every fact says ----

  /** A row that describes a real L2 as that L2 describes itself. */
  ghost predicate TrueRow(w: World, id: L2Id, p: Peer) {
    && id in w.nodes
    && p.enterprise == w.nodes[id].enterprise && p.group == w.nodes[id].group
    && p.endpoint == w.nodes[id].endpoint
    && (p.key.Some? ==> p.key == w.nodes[id].key)
  }

  ghost predicate TrueTables(w: World, s: State) {
    forall a, id :: a in s.tables && id in s.tables[a] ==> TrueRow(w, id, s.tables[a][id])
  }

  ghost predicate Knows(s: State, a: L2Id, b: L2Id) {
    a in s.tables && b in s.tables[a]
  }

  ghost predicate Lists(rows: seq<Entry>, id: L2Id) {
    exists e :: e in rows && e.id == id
  }

  /** The rows of a reply describe L2s of the seed's Enterprise, the seed among them. */
  ghost predicate TrueReply(w: World, seed: L2Id, rows: seq<Entry>) {
    && (forall e :: e in rows ==> TrueRow(w, e.id, e.peer) && SameEnterprise(w, e.id, seed))
    && Lists(rows, seed)
  }

  ghost predicate TrueFact(w: World, s: State, f: Fact) {
    match f
    case HelloSent(a, b) => a in w.nodes && b in w.nodes
    case HelloStored(a, b) => SameEnterprise(w, a, b) && Knows(s, b, a)
    case Replied(a, b, rows) => SameEnterprise(w, a, b) && Knows(s, b, a) && TrueReply(w, b, rows)
    case Absorbing(a, b, rows, next) =>
      && SameEnterprise(w, a, b) && Knows(s, b, a) && TrueReply(w, b, rows) && next <= |rows|
      && forall i :: 0 <= i < next && rows[i].id != a ==> Knows(s, a, rows[i].id)
    case Joined(a, b, rows) =>
      && SameEnterprise(w, a, b) && Knows(s, b, a) && TrueReply(w, b, rows)
      && forall e :: e in rows && e.id != a ==> Knows(s, a, e.id)
    case Announced(about, b) => about in w.nodes && b in w.nodes
  }

  ghost predicate TrueFacts(w: World, s: State) {
    forall f :: f in s.facts ==> TrueFact(w, s, f)
  }

  predicate HasRows(f: Fact) {
    f.Replied? || f.Absorbing? || f.Joined?
  }

  /** Of two replies by the same seed to different L2s, the later one lists the caller of the earlier one. */
  ghost predicate RepliesOverlap(s: State) {
    forall f, g :: f in s.facts && g in s.facts && HasRows(f) && HasRows(g) && f.seed == g.seed
                   && f.caller != g.caller ==>
      Lists(f.rows, g.caller) || Lists(g.rows, f.caller)
  }

  ghost predicate Inv(w: World, s: State) {
    s.tables.Keys == w.nodes.Keys && TrueTables(w, s) && TrueFacts(w, s) && RepliesOverlap(s)
  }

  lemma FactsSurvive(w: World, s: State, s': State)
    requires TrueFacts(w, s) && s'.facts == s.facts
    requires forall a, b :: Knows(s, a, b) ==> Knows(s', a, b)
    ensures TrueFacts(w, s')
  {
    hide TrueReply, Lists, Knows;
    forall f | f in s'.facts ensures TrueFact(w, s', f) {
      assert TrueFact(w, s, f);
    }
  }

  /** Storing a true row keeps every table true and loses no row. */
  lemma StoreKeepsInv(w: World, s: State, owner: L2Id, id: L2Id, p: Peer)
    requires Inv(w, s) && owner in w.nodes && TrueRow(w, id, p)
    ensures Inv(w, Store(s, owner, id, p))
    ensures Knows(Store(s, owner, id, p), owner, id)
    ensures forall a, b :: Knows(s, a, b) ==> Knows(Store(s, owner, id, p), a, b)
  {
    hide TrueFacts, TrueReply, Lists;
    FactsSurvive(w, s, Store(s, owner, id, p));
  }

  /** A new fact that holds and that overlaps with the earlier replies may be recorded. */
  lemma NoteKeepsInv(w: World, s: State, fs: set<Fact>)
    requires Inv(w, s) && forall f :: f in fs ==> TrueFact(w, s, f)
    requires RepliesOverlap(Note(s, fs))
    ensures Inv(w, Note(s, fs))
  {
    hide TrueReply, Lists, RepliesOverlap;
    forall f | f in Note(s, fs).facts ensures TrueFact(w, Note(s, fs), f) {
      assert TrueFact(w, s, f);
    }
  }

  /** A fact that carries no rows, or the rows of an earlier fact of the same exchange, keeps the overlap. */
  lemma SameRowsOverlap(w: World, s: State, f: Fact, g: Fact)
    requires Inv(w, s) && TrueFact(w, s, g)
    requires HasRows(g) ==> HasRows(f) && f in s.facts && f.caller == g.caller && f.seed == g.seed && f.rows == g.rows
    ensures Inv(w, Note(s, {g}))
  {
    hide TrueReply, Lists, TrueFacts, TrueTables;
    assert TrueFacts(w, s);
    assert forall f :: f in {g} ==> TrueFact(w, s, f);
    NoteKeepsInv(w, s, {g});
  }

  lemma HelloStepKeepsInv(w: World, s: State, e: Event)
    requires Inv(w, s) && Enabled(w, s, e) && (e.ReceiveHello? || e.ReceiveAnnounce?)
    ensures Inv(w, Next(w, s, e))
  {
    hide RepliesOverlap, TrueTables, TrueReply;
    var about := if e.ReceiveHello? then e.caller else e.about;
    var request := if e.ReceiveHello? then HelloSent(about, e.callee) else Announced(about, e.callee);
    assert TrueFact(w, s, request);
    if SameEnterprise(w, about, e.callee) {
      StoreKeepsInv(w, s, e.callee, about, HelloPeer(w.nodes[about]));
      var s1 := Store(s, e.callee, about, HelloPeer(w.nodes[about]));
      SameRowsOverlap(w, s1, request, HelloStored(about, e.callee));
    }
  }

  lemma ReplyIsTrue(w: World, s: State, seed: L2Id, listing: seq<Entry>)
    requires TrueTables(w, s) && seed in w.nodes && seed in s.tables
    requires IsListing(listing, s.tables[seed], w.nodes[seed].enterprise)
    ensures TrueReply(w, seed, ReplyRows(listing, seed, w.nodes[seed]))
  {
    var self := Entry(seed, HelloPeer(w.nodes[seed]));
    assert self in ReplyRows(listing, seed, w.nodes[seed]);
  }

  /** The seed stored the caller of every earlier reply before it read its table for this one. */
  lemma ReplyListsEarlierCallers(w: World, s: State, seed: L2Id, listing: seq<Entry>, g: Fact)
    requires TrueTables(w, s) && seed in w.nodes && seed in s.tables
    requires TrueFact(w, s, g) && HasRows(g) && g.seed == seed
    requires IsListing(listing, s.tables[seed], w.nodes[seed].enterprise)
    ensures Lists(ReplyRows(listing, seed, w.nodes[seed]), g.caller)
  {
    assert Knows(s, seed, g.caller);
    var e := Entry(g.caller, s.tables[seed][g.caller]);
    assert e in listing;
    assert e in ReplyRows(listing, seed, w.nodes[seed]);
  }

  lemma ReplyKeepsInv(w: World, s: State, e: Event)
    requires Inv(w, s) && Enabled(w, s, e) && e.Reply?
    ensures Inv(w, Next(w, s, e))
  {
    hide TrueReply, Lists, TrueTables, IsListing, FloodTargets, ReplyRows;
    var a, b := e.caller, e.callee;
    assert TrueFact(w, s, HelloStored(a, b));
    var rows := ReplyRows(e.listing, b, w.nodes[b]);
    var announces := set r | r in FloodTargets(w, e.listing, a, b) :: Announced(a, r);
    ReplyIsTrue(w, s, b, e.listing);
    forall g | g in s.facts && HasRows(g) && g.seed == b ensures Lists(rows, g.caller) {
      ReplyListsEarlierCallers(w, s, b, e.listing, g);
    }
    FloodReachesNodes(w, e.listing, a, b);
    NoteKeepsInv(w, s, {Replied(a, b, rows)} + announces);
  }

  lemma FloodReachesNodes(w: World, listing: seq<Entry>, joiner: L2Id, seed: L2Id)
    ensures FloodTargets(w, listing, joiner, seed) <= w.nodes.Keys
  {
  }

  lemma AbsorbKeepsInv(w: World, s: State, e: Event)
    requires Inv(w, s) && Enabled(w, s, e) && e.AbsorbRow?
    ensures Inv(w, Next(w, s, e))
  {
    hide RepliesOverlap, TrueTables, Lists;
    var before, after := Absorbing(e.caller, e.seed, e.rows, e.next), Absorbing(e.caller, e.seed, e.rows, e.next + 1);
    assert TrueFact(w, s, before);
    var row := e.rows[e.next];
    assert row in e.rows;
    if row.id == e.caller {
      SameRowsOverlap(w, s, before, after);
    } else {
      var s1 := Store(s, e.caller, row.id, WirePeer(row.peer));
      StoreKeepsInv(w, s, e.caller, row.id, WirePeer(row.peer));
      assert TrueFact(w, s1, before);
      SameRowsOverlap(w, s1, before, after);
    }
  }

  lemma PollKeepsInv(w: World, s: State, e: Event)
    requires Inv(w, s) && Enabled(w, s, e) && e.PollSignature?
    ensures Inv(w, Next(w, s, e))
  {
    var row := s.tables[e.caller][e.peer];
    assert TrueRow(w, e.peer, row);
    StoreKeepsInv(w, s, e.caller, e.responder, SignedPeer(w.nodes[e.responder], row.endpoint, e.signature));
  }

  lemma JoinStepKeepsInv(w: World, s: State, e: Event)
    requires Inv(w, s) && Enabled(w, s, e) && (e.SendHello? || e.StartAbsorbing? || e.FinishJoin?)
    ensures Inv(w, Next(w, s, e))
  {
    hide RepliesOverlap, TrueTables, TrueReply;
    match e {
      case SendHello(a, b) => SameRowsOverlap(w, s, HelloSent(a, b), HelloSent(a, b));
      case StartAbsorbing(a, b, rows) =>
        assert TrueFact(w, s, Replied(a, b, rows));
        SameRowsOverlap(w, s, Replied(a, b, rows), Absorbing(a, b, rows, 0));
      case FinishJoin(a, b, rows) =>
        assert TrueFact(w, s, Absorbing(a, b, rows, |rows|));
        SameRowsOverlap(w, s, Absorbing(a, b, rows, |rows|), Joined(a, b, rows));
    }
  }

  lemma StepKeepsInv(w: World, s: State, e: Event)
    requires Inv(w, s) && Enabled(w, s, e)
    ensures Inv(w, Next(w, s, e))
  {
    hide Inv, Next, Enabled;
    if e.ReceiveHello? || e.ReceiveAnnounce? {
      HelloStepKeepsInv(w, s, e);
    } else if e.Reply? {
      ReplyKeepsInv(w, s, e);
    } else if e.AbsorbRow? {
      AbsorbKeepsInv(w, s, e);
    } else if e.PollSignature? {
      PollKeepsInv(w, s, e);
    } else {
      JoinStepKeepsInv(w, s, e);
    }
  }

  lemma {:induction false} RunKeepsInv(w: World, ss: seq<State>, es: seq<Event>, n: nat)
    requires IsRun(w, ss, es) && n < |ss|
    ensures Inv(w, ss[n])
  {
    hide Next, Enabled, TrueReply, TrueRow, Lists;
    if n == 0 {
    } else {
      RunKeepsInv(w, ss, es, n - 1);
      StepKeepsInv(w, ss[n - 1], es[n - 1]);
    }
  }

  /** A hello reaches only an L2 that admits its sender, and only from an L2 to a table of its own Enterprise. */
  lemma {:induction false} HelloIsAdmitted(w: World, ss: seq<State>, es: seq<Event>, n: nat, a: L2Id, b: L2Id)
    requires IsRun(w, ss, es) && n < |ss|
    ensures HelloSent(a, b) in ss[n].facts ==> (a, b) in w.admits
    ensures HelloStored(a, b) in ss[n].facts ==> (a, b) in w.admits && SameEnterprise(w, a, b) && Knows(ss[n], b, a)
  {
    hide IsListing, FloodTargets, ReplyRows, TrueTables, TrueReply, RepliesOverlap;
    RunKeepsInv(w, ss, es, n);
    if n == 0 {
    } else {
      HelloIsAdmitted(w, ss, es, n - 1, a, b);
    }
    if HelloStored(a, b) in ss[n].facts {
      assert TrueFact(w, ss[n], HelloStored(a, b));
    }
  }

  // ---- Pairwise knowledge and convergence ----

  ghost predicate HasJoined(s: State, a: L2Id, seed: L2Id) {
    exists rows :: Joined(a, seed, rows) in s.facts
  }

  /**
   Whatever was lost and however the hellos interleaved: of two L2s whose bootstrap against the same seed
   succeeded one knows the other, and each of them and the seed know each other.
   */
  lemma PairwiseKnowledge(w: World, ss: seq<State>, es: seq<Event>, n: nat, a: L2Id, b: L2Id, seed: L2Id)
    requires IsRun(w, ss, es) && n < |ss| && a != b
    requires HasJoined(ss[n], a, seed) && HasJoined(ss[n], b, seed)
    ensures Knows(ss[n], a, b) || Knows(ss[n], b, a)
    ensures a != seed ==> Knows(ss[n], a, seed) && Knows(ss[n], seed, a)
  {
    hide IsRun, TrueTables, TrueRow, TrueReply, Lists;
    RunKeepsInv(w, ss, es, n);
    var rowsA :| Joined(a, seed, rowsA) in ss[n].facts;
    var rowsB :| Joined(b, seed, rowsB) in ss[n].facts;
    var f, g := Joined(a, seed, rowsA), Joined(b, seed, rowsB);
    assert HasRows(f) && HasRows(g);
    if Lists(rowsA, b) {
      JoinedKnowsRows(w, ss[n], f, b);
    }
    if Lists(rowsB, a) {
      JoinedKnowsRows(w, ss[n], g, a);
    }
    if a != seed {
      JoinedKnowsRows(w, ss[n], f, seed);
    }
  }

  lemma JoinedKnowsRows(w: World, s: State, f: Fact, id: L2Id)
    requires TrueFacts(w, s) && f in s.facts && f.Joined? && id != f.caller
    ensures Knows(s, f.seed, f.caller)
    ensures Lists(f.rows, id) || id == f.seed ==> Knows(s, f.caller, id)
  {
    assert TrueFact(w, s, f);
    assert Lists(f.rows, f.seed);
  }

  lemma StepKeepsKnowledge(w: World, s: State, e: Event, a: L2Id, b: L2Id)
    requires Enabled(w, s, e) && Knows(s, a, b)
    ensures Knows(Next(w, s, e), a, b)
  {
  }

  /** No step removes a row. */
  lemma {:induction false} KnowledgeIsKept(w: World, ss: seq<State>, es: seq<Event>, i: nat, n: nat, a: L2Id, b: L2Id)
    requires IsRun(w, ss, es) && i <= n < |ss| && Knows(ss[i], a, b)
    ensures Knows(ss[n], a, b)
  {
    if i == n {
    } else {
      KnowledgeIsKept(w, ss, es, i, n - 1, a, b);
      StepKeepsKnowledge(w, ss[n - 1], es[n - 1], a, b);
    }
  }

  ghost predicate IsPollTarget(w: World, s: State, a: L2Id, p: L2Id) {
    && a in w.nodes && Knows(s, a, p) && p != a
    && s.tables[a][p].enterprise == w.nodes[a].enterprise && s.tables[a][p].endpoint != ""
  }

  /** From step `i` on, `a` ran a poll cycle over the peers it then had, and each of them received its hello. */
  ghost predicate PollCycle(w: World, ss: seq<State>, es: seq<Event>, a: L2Id, i: nat) {
    && |ss| == |es| + 1 && i < |ss|
    && forall p :: IsPollTarget(w, ss[i], a, p) ==>
         exists k :: i <= k < |es| && es[k] == ReceiveHello(a, p)
  }

  /** After such a cycle the polling L2 is known to everyone it knew. */
  lemma PolledPeerKnows(w: World, ss: seq<State>, es: seq<Event>, a: L2Id, b: L2Id, i: nat)
    requires IsRun(w, ss, es) && PollCycle(w, ss, es, a, i) && a != b
    requires Knows(ss[i], a, b) && SameEnterprise(w, a, b) && w.nodes[b].endpoint != ""
    ensures Knows(ss[|es|], b, a)
  {
    RunKeepsInv(w, ss, es, i);
    assert TrueRow(w, b, ss[i].tables[a][b]);
    assert IsPollTarget(w, ss[i], a, b);
    var k :| i <= k < |es| && es[k] == ReceiveHello(a, b);
    RunKeepsInv(w, ss, es, k);
    assert Enabled(w, ss[k], es[k]) && ss[k + 1] == Next(w, ss[k], es[k]);
    assert Knows(ss[k + 1], b, a);
    KnowledgeIsKept(w, ss, es, k + 1, |es|, b, a);
  }

  lemma SeedMeetsJoiner(w: World, ss: seq<State>, es: seq<Event>, m: nat, n: nat, a: L2Id, seed: L2Id)
    requires IsRun(w, ss, es) && m <= n < |ss| && HasJoined(ss[m], a, seed) && a != seed
    ensures Knows(ss[n], a, seed) && Knows(ss[n], seed, a)
  {
    RunKeepsInv(w, ss, es, m);
    var rows :| Joined(a, seed, rows) in ss[m].facts;
    JoinedKnowsRows(w, ss[m], Joined(a, seed, rows), seed);
    KnowledgeIsKept(w, ss, es, m, n, a, seed);
    KnowledgeIsKept(w, ss, es, m, n, seed, a);
  }

  /**
   Convergence: once the non-stub L2s that joined through one seed have each run one poll cycle whose hellos
   arrived, every two of them know each other, and so do each of them and the seed, even if every announce
   was lost.
   */
  lemma Convergence(
    w: World, ss: seq<State>, es: seq<Event>, m: nat, members: set<L2Id>, seed: L2Id, cycle: L2Id -> nat)
    requires IsRun(w, ss, es) && m < |ss|
    requires forall a :: a in members ==> HasJoined(ss[m], a, seed) && a in w.nodes && w.nodes[a].endpoint != ""
    requires forall a :: a in members ==> m <= cycle(a) && PollCycle(w, ss, es, a, cycle(a))
    ensures forall a, b :: a in members && b in members && a != b ==> Knows(ss[|es|], a, b)
    ensures forall a :: a in members && a != seed ==> Knows(ss[|es|], a, seed) && Knows(ss[|es|], seed, a)
  {
    forall a, b | a in members && b in members && a != b ensures Knows(ss[|es|], a, b) {
      MembersMeet(w, ss, es, m, a, b, seed, cycle(a), cycle(b));
    }
    forall a | a in members && a != seed ensures Knows(ss[|es|], a, seed) && Knows(ss[|es|], seed, a) {
      SeedMeetsJoiner(w, ss, es, m, |es|, a, seed);
    }
  }

  lemma MembersMeet(
    w: World, ss: seq<State>, es: seq<Event>, m: nat, a: L2Id, b: L2Id, seed: L2Id, i: nat, j: nat)
    requires IsRun(w, ss, es) && m < |ss| && a != b
    requires HasJoined(ss[m], a, seed) && HasJoined(ss[m], b, seed)
    requires a in w.nodes && b in w.nodes && w.nodes[a].endpoint != "" && w.nodes[b].endpoint != ""
    requires m <= i && PollCycle(w, ss, es, a, i) && m <= j && PollCycle(w, ss, es, b, j)
    ensures Knows(ss[|es|], a, b) && Knows(ss[|es|], b, a)
  {
    PairwiseKnowledge(w, ss, es, m, a, b, seed);
    JoinedTogether(w, ss, es, m, a, b, seed);
    if Knows(ss[m], a, b) {
      KnowledgeIsKept(w, ss, es, m, i, a, b);
      KnowledgeIsKept(w, ss, es, m, |es|, a, b);
      PolledPeerKnows(w, ss, es, a, b, i);
    } else {
      KnowledgeIsKept(w, ss, es, m, j, b, a);
      KnowledgeIsKept(w, ss, es, m, |es|, b, a);
      PolledPeerKnows(w, ss, es, b, a, j);
    }
  }

  lemma JoinedTogether(w: World, ss: seq<State>, es: seq<Event>, n: nat, a: L2Id, b: L2Id, seed: L2Id)
    requires IsRun(w, ss, es) && n < |ss|
    requires HasJoined(ss[n], a, seed) && HasJoined(ss[n], b, seed)
    ensures SameEnterprise(w, a, b)
  {
    RunKeepsInv(w, ss, es, n);
    var rowsA :| Joined(a, seed, rowsA) in ss[n].facts;
    var rowsB :| Joined(b, seed, rowsB) in ss[n].facts;
    assert TrueFact(w, ss[n], Joined(a, seed, rowsA)) && TrueFact(w, ss[n], Joined(b, seed, rowsB));
  }

  // ---- Truthfulness ----

  /** Every row of every table describes an L2 of the owner's Enterprise as that L2 describes itself. */
  ghost predicate Truthful(w: World, s: State) {
    forall a, id :: Knows(s, a, id) ==> TrueRow(w, id, s.tables[a][id]) && SameEnterprise(w, a, id)
  }

  /**
   No L2 is admitted to an L2 of another Enterprise at the endpoint of one of its siblings. Polling is the
   one path on which nobody compares Enterprises.
   */
  ghost predicate NoForeignAlias(w: World) {
    forall a, p, r :: !ForeignAlias(w, a, p, r)
  }

  ghost predicate ForeignAlias(w: World, a: L2Id, p: L2Id, r: L2Id) {
    && SameEnterprise(w, a, p) && a != p && r in w.nodes && (a, r) in w.admits
    && w.nodes[p].endpoint != "" && w.nodes[r].endpoint == w.nodes[p].endpoint
    && !SameEnterprise(w, a, r)
  }

  ghost predicate SiblingsAdmitted(w: World) {
    forall a, b :: SameEnterprise(w, a, b) ==> (a, b) in w.admits
  }

  lemma StepKeepsTruth(w: World, s: State, e: Event)
    requires NoForeignAlias(w) && Inv(w, s) && Truthful(w, s) && Enabled(w, s, e)
    ensures Truthful(w, Next(w, s, e))
  {
    hide RepliesOverlap, Lists;
    StepKeepsInv(w, s, e);
    match e {
      case AbsorbRow(a, b, rows, next) =>
        assert TrueFact(w, s, Absorbing(a, b, rows, next));
        assert rows[next] in rows;
      case PollSignature(a, p, r, _) =>
        assert Knows(s, a, p);
        assert !ForeignAlias(w, a, p, r);
      case _ =>
    }
  }

  lemma {:induction false} RunKeepsTruth(w: World, ss: seq<State>, es: seq<Event>, n: nat)
    requires NoForeignAlias(w) && IsRun(w, ss, es) && n < |ss|
    ensures Truthful(w, ss[n])
  {
    if n == 0 {
    } else {
      RunKeepsTruth(w, ss, es, n - 1);
      RunKeepsInv(w, ss, es, n - 1);
      StepKeepsTruth(w, ss[n - 1], es[n - 1]);
    }
  }

  /** With a foreign alias, one hello and one poll put a foreign row into a table. */
  lemma ForeignRowReachable(w: World, a: L2Id, p: L2Id, r: L2Id)
    requires SiblingsAdmitted(w) && ForeignAlias(w, a, p, r)
    ensures exists ss, es :: IsRun(w, ss, es) && !Truthful(w, ss[|es|])
  {
    var e0, e1, e2 := SendHello(p, a), ReceiveHello(p, a), PollSignature(a, p, r, NO_SIGNATURE);
    var s0 := State(map id | id in w.nodes :: map[], {});
    var s1 := Next(w, s0, e0);
    var s2 := Next(w, s1, e1);
    var s3 := Next(w, s2, e2);
    assert Knows(s3, a, r);
    assert IsRun(w, [s0, s1, s2, s3], [e0, e1, e2]);
  }

  /** Truthfulness holds in every reachable state exactly when the deployment has no foreign alias. */
  lemma TruthfulnessExactly(w: World)
    requires SiblingsAdmitted(w)
    ensures NoForeignAlias(w) <==>
            forall ss, es, n: nat :: IsRun(w, ss, es) && n < |ss| ==> Truthful(w, ss[n])
  {
    if NoForeignAlias(w) {
      forall ss, es, n: nat | IsRun(w, ss, es) && n < |ss| ensures Truthful(w, ss[n]) {
        RunKeepsTruth(w, ss, es, n);
      }
    } else {
      var a, p, r :| ForeignAlias(w, a, p, r);
      ForeignRowReachable(w, a, p, r);
    }
  }
}
