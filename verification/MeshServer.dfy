/** One L2 server: its peer table and the handlers and loops that update it. */
module MeshServer {
  import opened Prelude
  import opened Mesh

  datatype HelloBody = HelloBody(id: L2Id, enterprise: string, group: string, endpoint: string, key: Option<string>)

  /** `announceTo` are the endpoints the flood about the joiner goes to. */
  datatype HelloReply = HelloReply(rows: seq<Entry>, announceTo: seq<string>)

  function BodyPeer(b: HelloBody): Peer {
    Peer(b.enterprise, b.group, b.endpoint, b.key, NO_SIGNATURE, false)
  }

  /** The answer to a signature request; an L2 may leave its endpoint out. */
  datatype SignatureReply =
    SignatureReply(id: L2Id, enterprise: string, group: string, endpoint: string, signature: Signature)

  function ReplyPeer(b: SignatureReply, polled: string): Peer {
    Peer(b.enterprise, b.group, if b.endpoint != "" then b.endpoint else polled, None, b.signature, true)
  }

  // ---- What the statement leaves, field by field ----

  ghost predicate Describes(p: Peer, enterprise: string, group: string, endpoint: string) {
    p.enterprise == enterprise && p.group == group && p.endpoint == endpoint
  }

  /** No other row changes. */
  ghost predicate OnlyRow(was: Table, now: Table, id: L2Id) {
    now.Keys == was.Keys + {id} && forall k :: k in was && k != id ==> now[k] == was[k]
  }

  function KeyIn(t: Table, id: L2Id): Option<string> {
    if id in t then t[id].key else None
  }

  /**
   The row takes over what it is given, and keeps a stored key when given none and a stored signature when the
   call carries none.
   */
  lemma UpsertedRow(t: Table, id: L2Id, p: Peer)
    ensures var now := Upsert(t, id, p);
      && OnlyRow(t, now, id) && Describes(now[id], p.enterprise, p.group, p.endpoint)
      && now[id].key == (if p.key.Some? then p.key else KeyIn(t, id))
      && now[id].signature == (if p.signed || id !in t then p.signature else t[id].signature)
      && (now[id].signed <==> p.signed || (id in t && t[id].signed))
  {
  }

  /** A poll that is answered leaves the signature answered, whatever was stored before. */
  lemma PolledRow(w: World, s: State, e: Event)
    requires e.PollSignature? && Enabled(w, s, e)
    ensures var a, r, n := e.caller, e.responder, w.nodes[e.responder];
            var t, now := s.tables[a], Next(w, s, e).tables[a];
      && OnlyRow(t, now, r) && Describes(now[r], n.enterprise, n.group, n.endpoint)
      && now[r].signature == e.signature && now[r].signed && now[r].key == KeyIn(t, r)
    ensures IsPollTarget(w, s, e.caller, e.peer) && (e.caller, e.responder) in w.admits
  {
  }

  // ---- The handlers are the steps of the protocol ----

  /** `body` is what L2 `body.id` says about itself, and `callee` is a server with this node and table. */
  ghost predicate IsCall(w: World, s: State, body: HelloBody, callee: L2Id, node: Node, table: Table) {
    && body.id in w.nodes
    && w.nodes[body.id] == Node(body.enterprise, body.group, body.endpoint, body.key)
    && IsAt(w, s, callee, node, table)
  }

  ghost predicate IsAt(w: World, s: State, id: L2Id, node: Node, table: Table) {
    id in w.nodes && w.nodes[id] == node && id in s.tables && s.tables[id] == table
  }

  /** A server that upserts the body of a hello or an announce of its Enterprise takes the step of the protocol. */
  lemma BodyIsReceived(w: World, s: State, body: HelloBody, callee: L2Id, node: Node, table: Table)
    requires IsCall(w, s, body, callee, node, table)
    ensures var now := if body.enterprise == node.enterprise then Upsert(table, body.id, BodyPeer(body)) else table;
      && (HelloSent(body.id, callee) in s.facts ==>
           Next(w, s, ReceiveHello(body.id, callee)).tables[callee] == now)
      && (Announced(body.id, callee) in s.facts ==>
           Next(w, s, ReceiveAnnounce(body.id, callee)).tables[callee] == now)
  {
  }

  /** The flood reaches whoever answers at one of the endpoints it contacts. */
  lemma FloodIsAnnounced(w: World, t: Table, enterprise: string, listing: seq<Entry>, joiner: L2Id, seed: L2Id, r: L2Id)
    requires IsListing(listing, t, enterprise) && r in w.nodes
    ensures r in FloodTargets(w, listing, joiner, seed) <==>
            IsContacted(t, enterprise, joiner, seed, w.nodes[r].endpoint)
  {
    if IsContacted(t, enterprise, joiner, seed, w.nodes[r].endpoint) {
      var p :| p in t && t[p].enterprise == enterprise && IsFloodTarget(Entry(p, t[p]), joiner, seed)
               && t[p].endpoint == w.nodes[r].endpoint;
      assert Entry(p, t[p]) in listing;
    }
  }

  /** The flood about `joiner` contacts `u`. */
  ghost predicate IsContacted(t: Table, enterprise: string, joiner: L2Id, self: L2Id, u: string) {
    exists p :: p in t && t[p].enterprise == enterprise && IsFloodTarget(Entry(p, t[p]), joiner, self)
                && t[p].endpoint == u
  }

  /** `reply` is what the L2 that answers at the endpoint of row `p` says about itself to `caller`. */
  ghost predicate IsAnswer(
    w: World, s: State, reply: SignatureReply, p: L2Id, polled: string, caller: L2Id, node: Node, table: Table)
  {
    && IsAt(w, s, caller, node, table)
    && Enabled(w, s, PollSignature(caller, p, reply.id, reply.signature)) && table[p].endpoint == polled
    && reply.enterprise == w.nodes[reply.id].enterprise && reply.group == w.nodes[reply.id].group
    && reply.endpoint == w.nodes[reply.id].endpoint
  }

  lemma AnswerIsStored(
    w: World, s: State, reply: SignatureReply, p: L2Id, polled: string, caller: L2Id, node: Node, table: Table)
    requires IsAnswer(w, s, reply, p, polled, caller, node, table)
    ensures Next(w, s, PollSignature(caller, p, reply.id, reply.signature)).tables[caller] ==
            Upsert(table, reply.id, ReplyPeer(reply, polled))
  {
  }

  /** The table after the bootstrap loop has absorbed `rows`. */
  function AbsorbAll(t: Table, self: L2Id, rows: seq<Entry>): Table {
    if rows == [] then t
    else
      var before := AbsorbAll(t, self, rows[..|rows| - 1]);
      var row := rows[|rows| - 1];
      if row.id == self then before else Upsert(before, row.id, WirePeer(row.peer))
  }

  /** A row that survives absorption keeps a stored key and a stored signature. */
  ghost predicate Keeps(was: Peer, now: Peer) {
    && (was.key.Some? ==> now.key.Some?)
    && now.signature == was.signature && now.signed == was.signed
  }

  lemma KeepsTransitive(a: Peer, b: Peer, c: Peer)
    requires Keeps(a, b) && Keeps(b, c)
    ensures Keeps(a, c)
  {
  }

  /**
   Absorbing a reply learns every listed L2 but oneself, with the endpoint and Enterprise the last row for it
   gave; it forgets no L2, no key and no signature, and leaves unlisted rows alone.
   */
  lemma {:induction false} AbsorbAllProperties(t: Table, self: L2Id, rows: seq<Entry>)
    ensures var r := AbsorbAll(t, self, rows);
      && (forall id :: id in r <==> id in t || (id != self && Lists(rows, id)))
      && (forall id :: id in t ==> Keeps(t[id], r[id]))
      && (forall id :: id in t && (id == self || !Lists(rows, id)) ==> r[id] == t[id])
  {
    if rows == [] {
    } else {
      var init, row := rows[..|rows| - 1], rows[|rows| - 1];
      AbsorbAllProperties(t, self, init);
      var before, r := AbsorbAll(t, self, init), AbsorbAll(t, self, rows);
      assert rows == init + [row];
      assert forall id :: Lists(rows, id) <==> Lists(init, id) || id == row.id by {
        forall id | Lists(init, id) || id == row.id ensures Lists(rows, id) {
          assert row in rows;
          if Lists(init, id) {
            var e :| e in init && e.id == id;
            assert e in rows;
          }
        }
      }
      forall id | id in t ensures Keeps(t[id], r[id]) {
        KeepsTransitive(t[id], before[id], r[id]);
      }
    }
  }

  /** The counts and the model travel with a row, the vectors do not. */
  predicate CountsOnly(s: Signature, sent: Signature) {
    && s.centroid == None && s.bloom == None
    && s.kuCount == sent.kuCount && s.domainCount == sent.domainCount && s.model == sent.model
  }

  lemma NotYetAbsorbed(t: Table, self: L2Id, rows: seq<Entry>, i: nat)
    requires i < |rows|
    ensures (forall k :: 0 <= k < i ==> rows[k].id != rows[i].id) ==>
              (rows[i].id in AbsorbAll(t, self, rows[..i]) <==> rows[i].id in t)
  {
    AbsorbAllProperties(t, self, rows[..i]);
  }

  /** What an absorbed row says about an L2, which the last row for it decides. */
  lemma {:induction false} AbsorbedRow(t: Table, self: L2Id, rows: seq<Entry>, i: nat)
    requires i < |rows| && rows[i].id != self
    requires forall k :: i < k < |rows| ==> rows[k].id != rows[i].id
    ensures rows[i].id in AbsorbAll(t, self, rows)
    ensures var p := AbsorbAll(t, self, rows)[rows[i].id];
      && p.enterprise == rows[i].peer.enterprise && p.group == rows[i].peer.group
      && p.endpoint == rows[i].peer.endpoint
      && (rows[i].peer.key.Some? ==> p.key == rows[i].peer.key)
      && (rows[i].id !in t && (forall k :: 0 <= k < i ==> rows[k].id != rows[i].id) ==>
           p.key == rows[i].peer.key && p.signed == false && CountsOnly(p.signature, rows[i].peer.signature))
  {
    NotYetAbsorbed(t, self, rows, i);
    if i < |rows| - 1 {
      AbsorbedRow(t, self, rows[..|rows| - 1], i);
    }
  }

  /** The absorption steps of the protocol, taken one after the other, compute `AbsorbAll`. */
  lemma AbsorbStepIsAbsorbAll(w: World, s: State, e: Event, t: Table)
    requires e.AbsorbRow? && Enabled(w, s, e) && e.caller in s.tables
    requires s.tables[e.caller] == AbsorbAll(t, e.caller, e.rows[..e.next])
    ensures Next(w, s, e).tables[e.caller] == AbsorbAll(t, e.caller, e.rows[..e.next + 1])
  {
    var upto := e.rows[..e.next + 1];
    assert upto[..|upto| - 1] == e.rows[..e.next];
  }

  predicate IsFloodTarget(e: Entry, joiner: L2Id, self: L2Id) {
    e.id != joiner && e.id != self && e.peer.endpoint != ""
  }

  class L2Server {
    const id: L2Id
    const node: Node
    var peers: Table

    constructor (id: L2Id, node: Node)
      ensures this.id == id && this.node == node && peers == map[]
    {
      this.id, this.node, peers := id, node, map[];
    }

    method UpsertPeer(id: L2Id, p: Peer)
      modifies this
      ensures peers == Upsert(old(peers), id, p)
    {
      if id !in peers {
        peers := peers[id := p];
      } else if p.signed {
        var key := if p.key.Some? then p.key else peers[id].key;
        peers := peers[id := p.(key := key)];
      } else {
        peers := peers[id := peers[id].(enterprise := p.enterprise, group := p.group, endpoint := p.endpoint)];
        if p.key.Some? {
          peers := peers[id := peers[id].(key := p.key)];
        }
      }
    }

    method ListPeers() returns (l: seq<Entry>)
      ensures IsListing(l, peers, node.enterprise)
      ensures forall i, j :: 0 <= i < j < |l| ==> l[i].id != l[j].id
      ensures forall id :: Lists(l, id) <==> id in peers && peers[id].enterprise == node.enterprise
    {
      l := [];
      var rest := peers.Keys;
      while rest != {}
        invariant rest <= peers.Keys
        invariant forall i, j :: 0 <= i < j < |l| ==> l[i].id != l[j].id
        invariant forall e :: e in l <==>
          e.id in peers.Keys - rest && peers[e.id] == e.peer && e.peer.enterprise == node.enterprise
        decreases rest
      {
        var id :| id in rest;
        rest := rest - {id};
        if peers[id].enterprise == node.enterprise {
          l := l + [Entry(id, peers[id])];
        }
      }
      forall id | id in peers && peers[id].enterprise == node.enterprise ensures Lists(l, id) {
        assert Entry(id, peers[id]) in l;
      }
    }

    /** The endpoints of the flood about `joiner`, one request per listed peer. */
    method FloodEndpoints(listing: seq<Entry>, joiner: L2Id) returns (urls: seq<string>)
      ensures forall u ::
        u in urls <==> exists e :: e in listing && IsFloodTarget(e, joiner, id) && e.peer.endpoint == u
    {
      urls := [];
      for i := 0 to |listing|
        invariant forall u :: u in urls <==>
          exists k :: 0 <= k < i && IsFloodTarget(listing[k], joiner, id) && listing[k].peer.endpoint == u
      {
        if listing[i].id == joiner || listing[i].id == id {
          continue;
        }
        if listing[i].peer.endpoint == "" {
          continue;
        }
        urls := urls + [listing[i].peer.endpoint];
      }
    }

    method Hello(body: HelloBody) returns (r: Result<HelloReply, ()>)
      modifies this
      ensures r.Err? <==> body.enterprise != node.enterprise
      ensures r.Err? ==> peers == old(peers)
      ensures forall w, s :: IsCall(w, s, body, id, node, old(peers)) && HelloSent(body.id, id) in s.facts ==>
        Next(w, s, ReceiveHello(body.id, id)).tables[id] == peers
      ensures r.Ok? ==>
        && OnlyRow(old(peers), peers, body.id) && Describes(peers[body.id], body.enterprise, body.group, body.endpoint)
        && peers[body.id].key == (if body.key.Some? then body.key else KeyIn(old(peers), body.id))
        && peers == Upsert(old(peers), body.id, BodyPeer(body))
        && Lists(r.value.rows, body.id)
        && (forall i, j :: 0 <= i < j < |r.value.rows| - 1 ==> r.value.rows[i].id != r.value.rows[j].id)
        && r.value.rows[|r.value.rows| - 1] ==
           Entry(id, Peer(node.enterprise, node.group, node.endpoint, node.key, NO_SIGNATURE, false))
        && (exists listing ::
              IsListing(listing, peers, node.enterprise) && r.value.rows == ReplyRows(listing, id, node))
        && (forall u :: u in r.value.announceTo <==> IsContacted(peers, node.enterprise, body.id, id, u))
    {
      ghost var was := peers;
      forall w, s | IsCall(w, s, body, id, node, was) && HelloSent(body.id, id) in s.facts
        ensures Next(w, s, ReceiveHello(body.id, id)).tables[id] ==
                if body.enterprise == node.enterprise then Upsert(was, body.id, BodyPeer(body)) else was
      {
        BodyIsReceived(w, s, body, id, node, was);
      }
      if body.enterprise != node.enterprise {
        return Err(());
      }
      UpsertedRow(peers, body.id, BodyPeer(body));
      UpsertPeer(body.id, BodyPeer(body));
      var listing := ListPeers();
      var urls := FloodEndpoints(listing, body.id);
      var rows := ReplyRows(listing, id, node);
      assert Entry(body.id, peers[body.id]) in listing;
      assert Entry(body.id, peers[body.id]) in rows && Entry(id, HelloPeer(node)) in rows;
      forall u ensures u in urls <==> IsContacted(peers, node.enterprise, body.id, id, u) {
        if u in urls {
          var e :| e in listing && IsFloodTarget(e, body.id, id) && e.peer.endpoint == u;
          assert e == Entry(e.id, peers[e.id]);
        }
        if IsContacted(peers, node.enterprise, body.id, id, u) {
          var p :| p in peers && peers[p].enterprise == node.enterprise
                   && IsFloodTarget(Entry(p, peers[p]), body.id, id) && peers[p].endpoint == u;
          assert Entry(p, peers[p]) in listing;
        }
      }
      return Ok(HelloReply(rows, urls));
    }

    /** The peers one poll cycle contacts. */
    method PollTargets() returns (targets: seq<L2Id>)
      ensures forall p :: p in targets <==>
        p in peers && peers[p].enterprise == node.enterprise && p != id && peers[p].endpoint != ""
      ensures forall w, s, p :: IsAt(w, s, id, node, peers) ==> (p in targets <==> IsPollTarget(w, s, id, p))
    {
      var listing := ListPeers();
      targets := [];
      for i := 0 to |listing|
        invariant forall p :: p in targets <==>
          exists k :: 0 <= k < i && listing[k].id == p && p != id && listing[k].peer.endpoint != ""
      {
        if listing[i].id == id || listing[i].peer.endpoint == "" {
          continue;
        }
        targets := targets + [listing[i].id];
      }
      forall p | p in peers && peers[p].enterprise == node.enterprise && p != id && peers[p].endpoint != ""
        ensures p in targets
      {
        assert Entry(p, peers[p]) in listing;
      }
    }

    method Announce(body: HelloBody) returns (r: Result<(), ()>)
      modifies this
      ensures r.Err? <==> body.enterprise != node.enterprise
      ensures peers == if r.Ok? then Upsert(old(peers), body.id, BodyPeer(body)) else old(peers)
      ensures r.Ok? ==>
        && OnlyRow(old(peers), peers, body.id) && Describes(peers[body.id], body.enterprise, body.group, body.endpoint)
        && peers[body.id].key == (if body.key.Some? then body.key else KeyIn(old(peers), body.id))
      ensures forall w, s :: IsCall(w, s, body, id, node, old(peers)) && Announced(body.id, id) in s.facts ==>
        Next(w, s, ReceiveAnnounce(body.id, id)).tables[id] == peers
    {
      ghost var was := peers;
      forall w, s | IsCall(w, s, body, id, node, was) && Announced(body.id, id) in s.facts
        ensures Next(w, s, ReceiveAnnounce(body.id, id)).tables[id] ==
                if body.enterprise == node.enterprise then Upsert(was, body.id, BodyPeer(body)) else was
      {
        BodyIsReceived(w, s, body, id, node, was);
      }
      UpsertedRow(peers, body.id, BodyPeer(body));
      if body.enterprise != node.enterprise {
        return Err(());
      }
      UpsertPeer(body.id, BodyPeer(body));
      return Ok(());
    }

    /** The answer to the signature request that was sent to the endpoint `polled`. */
    method RecordSignature(reply: SignatureReply, polled: string)
      modifies this
      ensures OnlyRow(old(peers), peers, reply.id)
      ensures Describes(peers[reply.id], reply.enterprise, reply.group,
                   if reply.endpoint != "" then reply.endpoint else polled)
      ensures peers[reply.id].signature == reply.signature && peers[reply.id].signed
      ensures peers[reply.id].key == KeyIn(old(peers), reply.id)
      ensures forall w, s, p :: IsAnswer(w, s, reply, p, polled, id, node, old(peers)) ==>
        Next(w, s, PollSignature(id, p, reply.id, reply.signature)).tables[id] == peers
    {
      ghost var was := peers;
      forall w, s, p | IsAnswer(w, s, reply, p, polled, id, node, was)
        ensures Next(w, s, PollSignature(id, p, reply.id, reply.signature)).tables[id] ==
                Upsert(was, reply.id, ReplyPeer(reply, polled))
      {
        AnswerIsStored(w, s, reply, p, polled, id, node, was);
      }
      UpsertedRow(peers, reply.id, ReplyPeer(reply, polled));
      UpsertPeer(reply.id, ReplyPeer(reply, polled));
    }

    /** The loop of a successful bootstrap over the seed's reply. */
    method AbsorbPeers(rows: seq<Entry>)
      modifies this
      ensures peers == AbsorbAll(old(peers), id, rows)
    {
      for i := 0 to |rows|
        invariant peers == AbsorbAll(old(peers), id, rows[..i])
      {
        assert rows[..i + 1][..i] == rows[..i];
        if rows[i].id == id {
          continue;
        }
        UpsertPeer(rows[i].id, WirePeer(rows[i].peer));
      }
      assert rows[..|rows|] == rows;
    }
  }
}
