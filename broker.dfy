/** The Rust broker's per-frame state updates (autobahn-rust/src/main.rs).

    The broker keeps a topic -> list-of-writers map (`subscribers`), a peer
    IP -> (interest set, writer) map (`external_streams`), and for every
    accepted connection the set of topics it subscribed to (`client_topics`).
    Each frame read from a connection applies one update; the tokio tasks,
    locks and awaits around them are not modelled, so updates happen one at
    a time. Sending through a writer appends to the broker's `sent` log. */
module Broker {
  import opened Wrappers
  import opened Bytes
  import opened Utf8
  import opened Flags

  type Ip = string

  /** What a `Writer` sends through: the write half of an accepted connection,
      or the outbound connection to a peer broker. */
  datatype Sink = Inbound(conn: nat) | Outbound(link: nat)

  /** `Writer`: a send handle and the id of the client it belongs to. */
  datatype Writer = Writer(id: nat, sink: Sink)

  /** A peer broker: the topics it subscribed to here, and its writer. */
  datatype PeerLink = PeerLink(interest: set<string>, writer: Writer)

  /** One frame written through a writer. */
  datatype Send = Send(to: Writer, frame: seq<byte>)

  /** A websocket message read from a connection. */
  datatype Incoming = CloseMsg | PingMsg | DataMsg(data: seq<byte>) | ReadError

  /** `rand::thread_rng().gen::<u32>() % 1000000`, with the random u32 as a
      parameter. */
  function ClientId(random: nat): (id: nat)
    requires random < TWO32
    ensures id < 1000000 && (random < 1000000 ==> id == random)
  {
    random % 1000000
  }

  /** `is_topic_match`: the message is at least as long as the topic's UTF-8
      bytes and starts with them. */
  predicate IsTopicMatch(topic: string, msg: seq<byte>)
  {
    |msg| >= |Encode(topic)| && msg[..|Encode(topic)|] == Encode(topic)
  }

  /** The match is exactly the prefix relation on bytes, the same test the
      C++ client applies to its subscription keys. */
  lemma IsTopicMatchIsPrefix(topic: string, msg: seq<byte>)
    ensures IsTopicMatch(topic, msg) <==> Encode(topic) <= msg
  {
  }

  /** The list stored under a topic, empty when there is none. */
  function Entry(subs: map<string, seq<Writer>>, topic: string): seq<Writer>
  {
    if topic in subs then subs[topic] else []
  }

  /** `entry(topic).or_insert_with(Vec::new).push(writer)`. */
  function AddSubscriber(subs: map<string, seq<Writer>>, topic: string, w: Writer): (r: map<string, seq<Writer>>)
    ensures r.Keys == subs.Keys + {topic}
    ensures r[topic] == Entry(subs, topic) + [w]
    ensures forall t :: t in subs && t != topic ==> r[t] == subs[t]
  {
    subs[topic := Entry(subs, topic) + [w]]
  }

  /** `retain(|s| s.id() != id)`: the entries of other clients, in order. */
  function Without(ws: seq<Writer>, id: nat): (r: seq<Writer>)
    ensures |r| <= |ws|
    ensures forall w :: w in r <==> w in ws && w.id != id
  {
    if ws == [] then []
    else (if ws[0].id != id then [ws[0]] else []) + Without(ws[1..], id)
  }

  /** How many entries of a list belong to client `id`. */
  function Count(ws: seq<Writer>, id: nat): nat
  {
    if ws == [] then 0
    else (if ws[0].id == id then 1 else 0) + Count(ws[1..], id)
  }

  lemma CountAppend(a: seq<Writer>, b: seq<Writer>, id: nat)
    ensures Count(a + b, id) == Count(a, id) + Count(b, id)
  {
    if a != [] {
      assert (a + b)[0] == a[0];
      assert (a + b)[1..] == a[1..] + b;
      CountAppend(a[1..], b, id);
    } else {
      assert a + b == b;
    }
  }

  /** A SUBSCRIBE from a client adds exactly one entry for it under the topic,
      so a client that subscribes twice is listed twice; no other client's
      count changes. */
  lemma SubscribeCount(subs: map<string, seq<Writer>>, topic: string, w: Writer, id: nat)
    ensures Count(AddSubscriber(subs, topic, w)[topic], id)
         == Count(Entry(subs, topic), id) + (if w.id == id then 1 else 0)
  {
    CountAppend(Entry(subs, topic), [w], id);
    assert [w][1..] == [];
  }

  /** After `retain`, no entry of the client remains and every other client
      keeps all of its entries. */
  lemma {:induction false} WithoutCount(ws: seq<Writer>, id: nat, other: nat)
    ensures Count(Without(ws, id), id) == 0
    ensures other != id ==> Count(Without(ws, id), other) == Count(ws, other)
  {
    if ws != [] {
      WithoutCount(ws[1..], id, other);
      var head := if ws[0].id != id then [ws[0]] else [];
      CountAppend(head, Without(ws[1..], id), id);
      CountAppend(head, Without(ws[1..], id), other);
      if head != [] { assert head[1..] == []; }
    }
  }

  /** `retain` twice is `retain` once. */
  lemma {:induction false} WithoutIdempotent(ws: seq<Writer>, id: nat)
    ensures Without(Without(ws, id), id) == Without(ws, id)
  {
    if ws != [] {
      WithoutIdempotent(ws[1..], id);
      WithoutAppend(if ws[0].id != id then [ws[0]] else [], Without(ws[1..], id), id);
    }
  }

  lemma {:induction false} WithoutAppend(a: seq<Writer>, b: seq<Writer>, id: nat)
    ensures Without(a + b, id) == Without(a, id) + Without(b, id)
  {
    if a != [] {
      assert (a + b)[0] == a[0];
      assert (a + b)[1..] == a[1..] + b;
      WithoutAppend(a[1..], b, id);
    } else {
      assert a + b == b;
    }
  }

  /** In multiset terms `retain` drops every copy with the id and keeps every
      other copy. */
  lemma {:induction false} WithoutMultiset(ws: seq<Writer>, id: nat, w: Writer)
    ensures multiset(Without(ws, id))[w] == if w.id == id then 0 else multiset(ws)[w]
  {
    if ws != [] {
      WithoutMultiset(ws[1..], id, w);
      assert ws == [ws[0]] + ws[1..];
    }
  }

  /** `Vec::swap_remove(i)`: the last element takes position i. */
  function SwapRemove(ws: seq<Writer>, i: nat): (r: seq<Writer>)
    requires i < |ws|
    ensures |r| == |ws| - 1
    ensures forall k :: 0 <= k < i ==> r[k] == ws[k]
  {
    var last := |ws| - 1;
    if i == last then ws[..last] else ws[..last][i := ws[last]]
  }

  /** `swap_remove` takes out exactly one copy of the removed element. */
  lemma SwapRemoveMultiset(ws: seq<Writer>, i: nat)
    requires i < |ws|
    ensures multiset(SwapRemove(ws, i)) == multiset(ws) - multiset{ws[i]}
  {
    var last := |ws| - 1;
    assert ws == ws[..last] + [ws[last]];
  }

  /** Removing an entry of the client keeps the multiset of other entries. */
  lemma SwapRemoveKeeps(ws: seq<Writer>, i: nat, id: nat)
    requires i < |ws| && ws[i].id == id
    ensures multiset(Without(SwapRemove(ws, i), id)) == multiset(Without(ws, id))
  {
    SwapRemoveMultiset(ws, i);
    forall w: Writer
      ensures multiset(Without(SwapRemove(ws, i), id))[w] == multiset(Without(ws, id))[w]
    {
      WithoutMultiset(SwapRemove(ws, i), id, w);
      WithoutMultiset(ws, id, w);
    }
  }

  /** The inner loop of `cleanup_subscriptions`: `swap_remove` every entry of
      the client, advancing only past entries of other clients. The result
      holds the same other entries, possibly in another order. */
  method RemoveClient(ws: seq<Writer>, id: nat) returns (r: seq<Writer>)
    ensures multiset(r) == multiset(Without(ws, id))
    ensures forall w :: w in r ==> w.id != id
  {
    r := ws;
    var i := 0;
    while i < |r|
      invariant 0 <= i <= |r|
      invariant forall k :: 0 <= k < i ==> r[k].id != id
      invariant multiset(Without(r, id)) == multiset(Without(ws, id))
      decreases |r| - i
    {
      if r[i].id == id {
        SwapRemoveKeeps(r, i, id);
        r := SwapRemove(r, i);
      } else {
        i := i + 1;
      }
    }
    WithoutNoop(r, id);
  }

  lemma {:induction false} WithoutNoop(ws: seq<Writer>, id: nat)
    requires forall k :: 0 <= k < |ws| ==> ws[k].id != id
    ensures Without(ws, id) == ws
  {
    if ws != [] {
      WithoutNoop(ws[1..], id);
      assert ws == [ws[0]] + ws[1..];
    }
  }

  /** The cleanup of one topic list: the other entries, as a multiset. */
  predicate Cleaned(before: seq<Writer>, after: seq<Writer>, id: nat)
  {
    multiset(after) == multiset(Without(before, id))
  }

  /** A cleaned list has no entry of the client, and every other writer
      keeps its number of copies. */
  lemma CleanedKeeps(before: seq<Writer>, after: seq<Writer>, id: nat, w: Writer)
    requires Cleaned(before, after, id)
    ensures Count(after, id) == 0
    ensures multiset(after)[w] == if w.id == id then 0 else multiset(before)[w]
  {
    WithoutMultiset(before, id, w);
    forall k | 0 <= k < |after|
      ensures after[k].id != id
    {
      assert after[k] in multiset(Without(before, id));
    }
    CountNone(after, id);
  }

  lemma {:induction false} CountNone(ws: seq<Writer>, id: nat)
    requires forall k :: 0 <= k < |ws| ==> ws[k].id != id
    ensures Count(ws, id) == 0
  {
    if ws != [] {
      CountNone(ws[1..], id);
    }
  }

  /** One frame to each writer, in order. */
  function ToWriters(ws: seq<Writer>, frame: seq<byte>): (r: seq<Send>)
    ensures |r| == |ws| && forall i :: 0 <= i < |ws| ==> r[i] == Send(ws[i], frame)
  {
    seq(|ws|, i requires 0 <= i < |ws| => Send(ws[i], frame))
  }

  /** `order` lists every key of the peer map exactly once: the iteration
      order of the `HashMap`, which the model leaves open. */
  ghost predicate IsOrder(order: seq<Ip>, keys: set<Ip>)
  {
    (forall i, j :: 0 <= i < j < |order| ==> order[i] != order[j])
    && (forall ip :: ip in order <==> ip in keys)
  }

  /** The writers of the listed peers that are interested in the topic. */
  function Interested(peers: map<Ip, PeerLink>, order: seq<Ip>, topic: string): (r: seq<Writer>)
    ensures forall w :: w in r ==> exists ip :: ip in order && ip in peers && topic in peers[ip].interest && w == peers[ip].writer
    ensures forall ip :: ip in order && ip in peers && topic in peers[ip].interest ==> peers[ip].writer in r
  {
    if order == [] then []
    else
      var ip := order[0];
      var rest := Interested(peers, order[1..], topic);
      assert forall x :: x in order <==> x == ip || x in order[1..];
      if ip in peers && topic in peers[ip].interest then [peers[ip].writer] + rest else rest
  }

  /** The writers of all listed peers. */
  function AllPeers(peers: map<Ip, PeerLink>, order: seq<Ip>): (r: seq<Writer>)
    requires forall ip :: ip in order ==> ip in peers
    ensures |r| == |order| && forall i :: 0 <= i < |order| ==> r[i] == peers[order[i]].writer
  {
    seq(|order|, i requires 0 <= i < |order| => peers[order[i]].writer)
  }

  /** A client's SUBSCRIBE is delivered its next PUBLISH on that topic. */
  lemma SubscribeThenPublish(subs: map<string, seq<Writer>>, topic: string, w: Writer, frame: seq<byte>)
    ensures Send(w, frame) in ToWriters(AddSubscriber(subs, topic, w)[topic], frame)
  {
    var ws := AddSubscriber(subs, topic, w)[topic];
    assert ws[|ws| - 1] == w;
  }

  /** After the intended UNSUBSCRIBE (or a cleanup) no PUBLISH on that topic
      reaches the client through the subscriber list. */
  lemma UnsubscribeThenPublish(ws: seq<Writer>, id: nat, frame: seq<byte>)
    ensures forall s :: s in ToWriters(Without(ws, id), frame) ==> s.to.id != id
  {
  }

  /** One accepted connection: its id, the peer IP it came from, its write
      half, the topics it subscribed to, and whether its task still runs. */
  class Connection {
    const id: nat
    const ip: Ip
    const sink: Sink
    var topics: set<string>
    var open: bool

    constructor(random: nat, ip: Ip, conn: nat)
      requires random < TWO32
      ensures id == ClientId(random) && this.ip == ip && sink == Inbound(conn)
      ensures topics == {} && open
    {
      id := ClientId(random);
      this.ip := ip;
      sink := Inbound(conn);
      topics := {};
      open := true;
    }

    /** The writer the broker stores for this connection. */
    function Handle(): Writer
      reads this
    {
      Writer(id, sink)
    }
  }

  class Broker {
    var subscribers: map<string, seq<Writer>>
    var peers: map<Ip, PeerLink>
    var sent: seq<Send>

    constructor()
      ensures subscribers == map[] && peers == map[] && sent == []
    {
      subscribers := map[];
      peers := map[];
      sent := [];
    }

    /** A successful connect to a configured peer: (re)insert it under its IP
        with an empty interest set and a writer with id 0, discarding any
        interest recorded for an earlier connection. */
    method PeerConnected(ip: Ip, link: nat)
      modifies this
      ensures peers == old(peers)[ip := PeerLink({}, Writer(0, Outbound(link)))]
      ensures subscribers == old(subscribers) && sent == old(sent)
    {
      peers := peers[ip := PeerLink({}, Writer(0, Outbound(link)))];
    }

    /** SUBSCRIBE(topic) read from `c`. The topic joins `client_topics` in
        every case. From a peer's IP it only joins that peer's interest set;
        otherwise one entry for `c` is appended under the topic and the
        (empty) SUBSCRIBE frame `build_message` makes is sent to every peer. */
    twostate predicate Subscribed(c: Connection, topic: string, order: seq<Ip>)
      reads this, c
    {
      && c.topics == old(c.topics) + {topic} && c.open == old(c.open)
      && (c.ip in old(peers) ==>
           peers == old(peers)[c.ip := PeerLink(old(peers)[c.ip].interest + {topic}, old(peers)[c.ip].writer)]
           && subscribers == old(subscribers) && sent == old(sent))
      && (c.ip !in old(peers) ==>
           subscribers == AddSubscriber(old(subscribers), topic, c.Handle())
           && peers == old(peers) && IsOrder(order, peers.Keys)
           && sent == old(sent) + ToWriters(AllPeers(peers, order), BuildMessage(Flags.Subscribe(topic))))
    }

    method Subscribe(c: Connection, topic: string) returns (order: seq<Ip>)
      modifies this, c
      ensures Subscribed(c, topic, order)
    {
      c.topics := c.topics + {topic};
      order := [];
      if c.ip in peers {
        var link := peers[c.ip];
        peers := peers[c.ip := PeerLink(link.interest + {topic}, link.writer)];
      } else {
        subscribers := AddSubscriber(subscribers, topic, c.Handle());
        order := SendToPeers(BuildMessage(Flags.Subscribe(topic)));
      }
    }

    /** The loop over `external_streams` that sends a frame to every peer, in
        the map's iteration order. */
    method SendToPeers(frame: seq<byte>) returns (order: seq<Ip>)
      modifies this
      ensures subscribers == old(subscribers) && peers == old(peers)
      ensures IsOrder(order, peers.Keys)
      ensures sent == old(sent) + ToWriters(AllPeers(peers, order), frame)
    {
      order := [];
      var todo := peers.Keys;
      while todo != {}
        invariant subscribers == old(subscribers) && peers == old(peers)
        invariant todo <= peers.Keys
        invariant forall i, j :: 0 <= i < j < |order| ==> order[i] != order[j]
        invariant forall ip :: ip in order <==> ip in peers && ip !in todo
        invariant sent == old(sent) + ToWriters(AllPeers(peers, order), frame)
        decreases |todo|
      {
        var ip :| ip in todo;
        sent := sent + [Send(peers[ip].writer, frame)];
        order := order + [ip];
        todo := todo - {ip};
      }
    }

    /** UNSUBSCRIBE(topic) read from `c`, as intended. The topic leaves
        `client_topics` in every case. From a peer's IP it only leaves that
        peer's interest set; otherwise every entry of `c` under the topic is
        dropped, the others keep their order, and a topic without a list is
        left alone. As written, the `retain` predicate calls `block_on` on
        the runtime that runs the task, which panics, so `Receive` reaches
        this effect only where the predicate is never called (see
        `RetainPanics`). */
    twostate predicate Unsubscribed(c: Connection, topic: string)
      reads this, c
    {
      && c.topics == old(c.topics) - {topic} && c.open == old(c.open)
      && sent == old(sent)
      && (c.ip in old(peers) ==>
           peers == old(peers)[c.ip := PeerLink(old(peers)[c.ip].interest - {topic}, old(peers)[c.ip].writer)]
           && subscribers == old(subscribers))
      && (c.ip !in old(peers) ==> peers == old(peers))
      && (c.ip !in old(peers) && topic in old(subscribers) ==>
           subscribers == old(subscribers)[topic := Without(old(subscribers)[topic], c.id)])
      && (topic !in old(subscribers) ==> subscribers == old(subscribers))
    }

    method Unsubscribe(c: Connection, topic: string)
      modifies this, c
      ensures Unsubscribed(c, topic)
    {
      c.topics := c.topics - {topic};
      if c.ip in peers {
        var link := peers[c.ip];
        peers := peers[c.ip := PeerLink(link.interest - {topic}, link.writer)];
      } else if topic in subscribers {
        subscribers := subscribers[topic := Without(subscribers[topic], c.id)];
      }
    }

    /** PUBLISH(topic, payload), from any connection: one PUBLISH frame to
        each entry of the topic's list, duplicates included, then one to each
        peer whose interest set holds the topic. Neither map changes. */
    twostate predicate Published(topic: string, payload: seq<byte>, order: seq<Ip>)
      reads this
    {
      && subscribers == old(subscribers) && peers == old(peers)
      && IsOrder(order, peers.Keys)
      && var frame := BuildMessage(Flags.Publish(topic, payload));
         sent == old(sent) + ToWriters(Entry(subscribers, topic), frame)
                           + ToWriters(Interested(peers, order, topic), frame)
    }

    method Publish(topic: string, payload: seq<byte>) returns (order: seq<Ip>)
      modifies this
      ensures Published(topic, payload, order)
    {
      var frame := BuildMessage(Flags.Publish(topic, payload));
      SendToAll(Entry(subscribers, topic), frame);
      var targets;
      targets, order := InterestedPeers(topic);
      SendToAll(targets, frame);
    }

    /** One send per writer, in order. */
    method SendToAll(ws: seq<Writer>, frame: seq<byte>)
      modifies this
      ensures subscribers == old(subscribers) && peers == old(peers)
      ensures sent == old(sent) + ToWriters(ws, frame)
    {
      var i := 0;
      while i < |ws|
        invariant subscribers == old(subscribers) && peers == old(peers)
        invariant 0 <= i <= |ws|
        invariant sent == old(sent) + ToWriters(ws[..i], frame)
      {
        assert ws[..i + 1] == ws[..i] + [ws[i]];
        sent := sent + [Send(ws[i], frame)];
        i := i + 1;
      }
      assert ws[..i] == ws;
    }

    /** The first pass over `external_streams` in PUBLISH: collect the writers
        of the peers whose interest set holds the topic. */
    method InterestedPeers(topic: string) returns (targets: seq<Writer>, order: seq<Ip>)
      ensures IsOrder(order, peers.Keys)
      ensures targets == Interested(peers, order, topic)
    {
      targets := [];
      order := [];
      var todo := peers.Keys;
      while todo != {}
        invariant todo <= peers.Keys
        invariant forall i, j :: 0 <= i < j < |order| ==> order[i] != order[j]
        invariant forall ip :: ip in order <==> ip in peers && ip !in todo
        invariant targets == Interested(peers, order, topic)
        decreases |todo|
      {
        var ip :| ip in todo;
        InterestedAppend(peers, order, ip, topic);
        if topic in peers[ip].interest {
          targets := targets + [peers[ip].writer];
        }
        order := order + [ip];
        todo := todo - {ip};
      }
    }

    /** `cleanup_subscriptions(client_topics, id)`: under every topic the
        connection subscribed to, drop all of its entries; the other entries
        of those lists stay (as a multiset) and other topics are untouched. */
    method Cleanup(c: Connection)
      modifies this
      ensures peers == old(peers) && sent == old(sent)
      ensures subscribers.Keys == old(subscribers).Keys
      ensures forall t :: t in subscribers ==>
        (if t in c.topics then Cleaned(old(subscribers)[t], subscribers[t], c.id)
         else subscribers[t] == old(subscribers)[t])
    {
      var todo := c.topics;
      while todo != {}
        invariant todo <= c.topics
        invariant peers == old(peers) && sent == old(sent)
        invariant subscribers.Keys == old(subscribers).Keys
        invariant forall t :: t in subscribers ==>
          (if t in c.topics && t !in todo then Cleaned(old(subscribers)[t], subscribers[t], c.id)
           else subscribers[t] == old(subscribers)[t])
        decreases |todo|
      {
        var t :| t in todo;
        if t in subscribers {
          var kept := RemoveClient(subscribers[t], c.id);
          subscribers := subscribers[t := kept];
        }
        todo := todo - {t};
      }
    }

    /** One message read by a connection's task, with the peer iteration
        order of the fan-out it makes (empty when it makes none). Close, a
        read error, or a frame that parses to None runs the cleanup and ends
        the connection's task; a ping does nothing; a parsed frame has the
        effect of SUBSCRIBE, UNSUBSCRIBE or PUBLISH and the connection stays
        open, except an UNSUBSCRIBE that panics in `retain`; a frame that would make `parse_message` panic ends the connection's task
        with no cleanup, so its entries stay in the subscriber lists. */
    method Receive(c: Connection, m: Incoming) returns (order: seq<Ip>)
      requires c.open
      modifies this, c
      ensures m.PingMsg? ==>
        (subscribers == old(subscribers) && peers == old(peers) && sent == old(sent) && c.topics == old(c.topics) && c.open)
      ensures (m.CloseMsg? || m.ReadError? || (m.DataMsg? && ParseMessage(m.data) == NoFrame)) ==> Closed(c)
      ensures m.DataMsg? && ParseMessage(m.data) == Panics ==>
        (!c.open && subscribers == old(subscribers) && peers == old(peers) && sent == old(sent) && c.topics == old(c.topics))
      ensures m.DataMsg? && ParseMessage(m.data).Frame? ==>
        match ParseMessage(m.data).msg
        case Subscribe(topic) => c.open && Subscribed(c, topic, order)
        case Unsubscribe(topic) =>
          if old(RetainPanics(c, topic)) then Abandoned(c, topic) else c.open && Unsubscribed(c, topic)
        case Publish(topic, payload) => c.open && Published(topic, payload, order)
    {
      order := [];
      match m
      case PingMsg =>
      case CloseMsg =>
        Close(c);
      case ReadError =>
        Close(c);
      case DataMsg(data) =>
        match ParseMessage(data)
        case Frame(Subscribe(topic)) =>
          order := Subscribe(c, topic);
        case Frame(Unsubscribe(topic)) =>
          if RetainPanics(c, topic) {
            c.topics := c.topics - {topic};
            c.open := false;
          } else {
            Unsubscribe(c, topic);
          }
        case Frame(Publish(topic, payload)) =>
          order := Publish(topic, payload);
        case NoFrame =>
          Close(c);
        case Panics =>
          c.open := false;
    }

    /** The state after `cleanup_subscriptions` and the end of the connection's task. */
    twostate predicate Closed(c: Connection)
      reads this, c
    {
      && !c.open && c.topics == old(c.topics) && peers == old(peers) && sent == old(sent)
      && subscribers.Keys == old(subscribers).Keys
      && (forall t :: t in subscribers ==>
           (if t in c.topics then Cleaned(old(subscribers)[t], subscribers[t], c.id)
            else subscribers[t] == old(subscribers)[t]))
      && (forall t :: t in c.topics && t in subscribers ==> Count(subscribers[t], c.id) == 0)
    }

    /** An UNSUBSCRIBE of a non-peer connection whose topic has a non-empty
        list calls the `retain` predicate at least once, and with it
        `Handle::current().block_on` from inside the runtime: the task
        panics. */
    predicate RetainPanics(c: Connection, topic: string)
      reads this, c
    {
      c.ip !in peers && topic in subscribers && subscribers[topic] != []
    }

    /** The state after that panic: the topic has left `client_topics`, the
        task has ended before any cleanup, and the lists are untouched, as
        `retain` decided nothing before the panic. */
    twostate predicate Abandoned(c: Connection, topic: string)
      reads this, c
    {
      && !c.open && c.topics == old(c.topics) - {topic}
      && subscribers == old(subscribers) && peers == old(peers) && sent == old(sent)
    }

    /** Cleanup, then end the connection's task. */
    method Close(c: Connection)
      modifies this, c
      ensures Closed(c)
    {
      Cleanup(c);
      c.open := false;
      forall t | t in c.topics && t in subscribers
        ensures Count(subscribers[t], c.id) == 0
      {
        CleanedKeeps(old(subscribers)[t], subscribers[t], c.id, c.Handle());
      }
    }
  }

  lemma InterestedAppend(peers: map<Ip, PeerLink>, order: seq<Ip>, ip: Ip, topic: string)
    ensures Interested(peers, order + [ip], topic)
         == Interested(peers, order, topic)
            + (if ip in peers && topic in peers[ip].interest then [peers[ip].writer] else [])
  {
    if order != [] {
      assert (order + [ip])[1..] == order[1..] + [ip];
      InterestedAppend(peers, order[1..], ip, topic);
    }
  }

  /** UNSUBSCRIBE as written: a client subscribes to `topic`, its UNSUBSCRIBE
      ends its task in `retain`, and its writer stays in the topic's list, so
      the next PUBLISH on the topic is still sent to it. */
  method UnsubscribeLeavesWriter(b: Broker, c: Connection, topic: string, data: seq<byte>, payload: seq<byte>)
    requires c.open && c.ip !in b.peers
    requires ParseMessage(data) == Frame(Flags.Unsubscribe(topic))
    modifies b, c
    ensures !c.open && topic in b.subscribers && c.Handle() in b.subscribers[topic]
    ensures Send(c.Handle(), BuildMessage(Flags.Publish(topic, payload))) in b.sent
  {
    var subscribeOrder := b.Subscribe(c, topic);
    var ws := b.subscribers[topic];
    assert ws[|ws| - 1] == c.Handle();
    var unsubscribeOrder := b.Receive(c, DataMsg(data));
    assert b.subscribers[topic] == ws;
    var publishOrder := b.Publish(topic, payload);
    var frame := BuildMessage(Flags.Publish(topic, payload));
    assert ToWriters(ws, frame)[|ws| - 1] == Send(c.Handle(), frame);
  }
}
