/** The C++ Autobahn client of the lidar process
    (hybrid-frustum-pointnet/lidar/src/util/autobahn.cpp).

    It sends `[flag][u32 topic length][topic][u32 payload length][payload]`,
    the layout the Rust broker's `parse_message` reads, and it reads
    `[flag][u16 topic length][topic][payload]`, the layout the broker's
    `build_message` writes for PUBLISH. A C++ `std::string` is a byte string.
    The `Flags` enum is declared in a header that is not part of this model;
    its values are taken to be the broker's 1, 2 and 3. */
module LidarClient {
  import opened Bytes
  import opened Utf8
  import opened Wrappers
  import Flags

  /** A `std::function` callback, known only by an identity. */
  type CallbackId = nat

  /** What `parse_message` extracts before it dispatches. */
  datatype Frame = Frame(flag: byte, topic: seq<byte>, payload: seq<byte>)

  /** One callback invocation: the subscription key whose callback ran, the
      callback, and the payload it was given. */
  datatype Call = Call(key: seq<byte>, callback: CallbackId, payload: seq<byte>)

  /** `send_message`: the frame pushed into the byte vector. Both lengths are
      `size()` converted to `uint32_t`, so they are taken mod 2^32. */
  function SendMessage(flag: byte, topic: seq<byte>, message: seq<byte>): (r: seq<byte>)
    ensures |r| == 9 + |topic| + |message| && r[0] == flag
    ensures r[5..5 + |topic|] == topic && r[9 + |topic|..] == message
  {
    var r := [flag] + U32(|topic|) + topic + U32(|message|) + message;
    assert r[5..5 + |topic|] == topic;
    assert r[9 + |topic|..] == message;
    r
  }

  /** The buffers `parse_message` reads without running past the end: the
      flag, two length bytes and the whole topic must be present. */
  predicate Readable(message: seq<byte>)
  {
    |message| >= 3 && 3 + ReadU16(message, 1) <= |message|
  }

  /** `parse_message` up to the dispatch: the flag, the u16 topic length read
      high byte first, that many topic bytes, and everything after them as the
      payload. On a shorter buffer the iterator runs past the end, so the
      function is defined only on Readable buffers. */
  function ParseFrame(message: seq<byte>): (f: Frame)
    requires Readable(message)
    ensures [f.flag] + U16(|f.topic|) + f.topic + f.payload == message
  {
    var n := ReadU16(message, 1);
    var f := Frame(message[0], message[3..3 + n], message[3 + n..]);
    U16OfRead(message);
    assert [f.flag] + U16(|f.topic|) + f.topic + f.payload
        == message[..1] + message[1..3] + message[3..3 + n] + message[3 + n..];
    f
  }

  lemma U16OfRead(message: seq<byte>)
    requires |message| >= 3
    ensures U16(ReadU16(message, 1)) == message[1..3]
  {
    var a, b: int := message[1], message[2];
    var n := ReadU16(message, 1);
    assert n / 256 == a && n % 256 == b;
  }

  /** `topic.compare(0, key.size(), key) == 0`: the first `key.size()` bytes
      of the topic (or the whole topic, if shorter) equal the key. */
  predicate Matches(key: seq<byte>, topic: seq<byte>)
  {
    var n := if |key| < |topic| then |key| else |topic|;
    topic[..n] == key
  }

  /** The comparison holds exactly when the key is a prefix of the topic. */
  lemma MatchesIsPrefix(key: seq<byte>, topic: seq<byte>)
    ensures Matches(key, topic) <==> key <= topic
  {
    if |key| > |topic| {
      assert |topic[..|topic|]| != |key|;
    }
  }

  /** The client object: the `subscriptions_` map and, in place of the
      websocket, the sequence of buffers written to it. */
  class Client {
    var subscriptions: map<seq<byte>, CallbackId>
    var sent: seq<seq<byte>>

    constructor()
      ensures subscriptions == map[] && sent == []
    {
      subscriptions := map[];
      sent := [];
    }

    /** `subscribe`: store or replace the callback, then send SUBSCRIBE with an
        empty payload. */
    method Subscribe(topic: seq<byte>, callback: CallbackId)
      modifies this
      ensures subscriptions == old(subscriptions)[topic := callback]
      ensures sent == old(sent) + [SendMessage(Flags.SUBSCRIBE, topic, [])]
    {
      subscriptions := subscriptions[topic := callback];
      sent := sent + [SendMessage(Flags.SUBSCRIBE, topic, [])];
    }

    /** `unsubscribe`: erase the entry (if any), then send UNSUBSCRIBE. */
    method Unsubscribe(topic: seq<byte>)
      modifies this
      ensures subscriptions == old(subscriptions) - {topic}
      ensures sent == old(sent) + [SendMessage(Flags.UNSUBSCRIBE, topic, [])]
    {
      subscriptions := subscriptions - {topic};
      sent := sent + [SendMessage(Flags.UNSUBSCRIBE, topic, [])];
    }

    /** `publish`: one PUBLISH frame; the subscriptions are untouched. */
    method Publish(topic: seq<byte>, message: seq<byte>)
      modifies this
      ensures subscriptions == old(subscriptions)
      ensures sent == old(sent) + [SendMessage(Flags.PUBLISH, topic, message)]
    {
      sent := sent + [SendMessage(Flags.PUBLISH, topic, message)];
    }

    /** `parse_message`: on a PUBLISH frame, call every stored callback whose
        key is a prefix of the frame's topic, once each, with the payload (in
        the map's iteration order, which is not modelled); on any other flag
        call nothing. */
    method ParseMessage(message: seq<byte>) returns (calls: seq<Call>)
      requires Readable(message)
      ensures var f := ParseFrame(message);
        f.flag != Flags.PUBLISH ==> calls == []
      ensures var f := ParseFrame(message);
        f.flag == Flags.PUBLISH ==>
          (forall c :: c in calls <==>
             (c.key in subscriptions && c.key <= f.topic
              && c == Call(c.key, subscriptions[c.key], f.payload)))
      ensures forall i, j :: 0 <= i < j < |calls| ==> calls[i].key != calls[j].key
    {
      var f := ParseFrame(message);
      calls := [];
      if f.flag == Flags.PUBLISH {
        var todo := subscriptions.Keys;
        while todo != {}
          invariant todo <= subscriptions.Keys
          invariant forall c :: c in calls <==>
            (c.key in subscriptions && c.key !in todo && c.key <= f.topic
             && c == Call(c.key, subscriptions[c.key], f.payload))
          invariant forall i, j :: 0 <= i < j < |calls| ==> calls[i].key != calls[j].key
          decreases |todo|
        {
          var key :| key in todo;
          MatchesIsPrefix(key, f.topic);
          if Matches(key, f.topic) {
            calls := calls + [Call(key, subscriptions[key], f.payload)];
          }
          todo := todo - {key};
        }
      }
    }
  }

  /** A C++ SUBSCRIBE or UNSUBSCRIBE with a well-formed UTF-8 topic is what
      the broker parses as that message (the empty payload's length field is
      trailing data there). */
  lemma BrokerReadsControl(flag: byte, topic: string)
    requires flag == Flags.SUBSCRIBE || flag == Flags.UNSUBSCRIBE
    requires |Encode(topic)| < TWO32
    ensures Flags.ParseMessage(SendMessage(flag, Encode(topic), []))
         == Flags.Frame(if flag == Flags.SUBSCRIBE then Flags.Subscribe(topic) else Flags.Unsubscribe(topic))
  {
    var t := Encode(topic);
    Flags.ParseTopicFrame(flag, topic, U32(0));
    assert SendMessage(flag, t, []) == [flag] + U32(|t|) + t + U32(0);
  }

  /** A C++ PUBLISH with a well-formed UTF-8 topic reaches the broker with
      the same topic and the same payload. */
  lemma BrokerReadsPublish(topic: string, message: seq<byte>)
    requires |Encode(topic)| < TWO32 && |message| < TWO32
    ensures Flags.ParseMessage(SendMessage(Flags.PUBLISH, Encode(topic), message))
         == Flags.Frame(Flags.Publish(topic, message))
  {
    var t := Encode(topic);
    Flags.ParsePublishFrame(topic, message, []);
    assert SendMessage(Flags.PUBLISH, t, message) == [Flags.PUBLISH] + U32(|t|) + t + U32(|message|) + message + [];
  }

  /** A C++ frame whose topic bytes are not UTF-8 is dropped by the broker as
      unparseable (None), whatever the flag. */
  lemma BrokerRejectsBadTopic(flag: byte, topic: seq<byte>, message: seq<byte>)
    requires |topic| < TWO32 && !Valid(topic)
    ensures Flags.ParseMessage(SendMessage(flag, topic, message)) == Flags.NoFrame
  {
    var data := SendMessage(flag, topic, message);
    assert data[1..5] == U32(|topic|);
    ReadU32Slice(data, 1, |topic|);
    Flags.ParseBadTopic(data);
  }

  /** ParseFrame inverts the layout it reads, for topics shorter than 2^16. */
  lemma ParseFrameOf(flag: byte, topic: seq<byte>, rest: seq<byte>)
    requires |topic| < TWO16
    ensures Readable([flag] + U16(|topic|) + topic + rest)
    ensures ParseFrame([flag] + U16(|topic|) + topic + rest) == Frame(flag, topic, rest)
  {
    var data := [flag] + U16(|topic|) + topic + rest;
    ReadU16Prefix(|topic|, topic + rest, [flag]);
    assert [flag] + U16(|topic|) + (topic + rest) == data;
    assert data[3..3 + |topic|] == topic;
    assert data[3 + |topic|..] == rest;
  }

  /** Every PUBLISH the broker builds is Readable here, and the client reads
      the broker's u16 length: the topic is the first |t| mod 2^16 bytes of
      the UTF-8 topic, and the rest of the buffer is the payload. */
  lemma ClientReadsBrokerPublish(topic: string, payload: seq<byte>)
    ensures Readable(Flags.BuildMessage(Flags.Publish(topic, payload)))
    ensures var t := Encode(topic); var n := |t| % TWO16;
      ParseFrame(Flags.BuildMessage(Flags.Publish(topic, payload)))
        == Frame(Flags.PUBLISH, t[..n], t[n..] + payload)
  {
    var t := Encode(topic);
    var n := |t| % TWO16;
    var built := Flags.BuildMessage(Flags.Publish(topic, payload));
    var head, tail := t[..n], t[n..] + payload;
    assert built == [Flags.PUBLISH] + U16(|head|) + head + tail by {
      assert built == [Flags.PUBLISH] + U16(|t|) + t + payload;
      U16Mod(|t|);
      assert t + payload == head + tail;
    }
    ParseFrameOf(Flags.PUBLISH, head, tail);
  }

  /** So a topic shorter than 2^16 bytes arrives intact, with the payload. */
  lemma ClientReadsShortPublish(topic: string, payload: seq<byte>)
    requires |Encode(topic)| < TWO16
    ensures ParseFrame(Flags.BuildMessage(Flags.Publish(topic, payload)))
         == Frame(Flags.PUBLISH, Encode(topic), payload)
  {
    var t := Encode(topic);
    assert Flags.BuildMessage(Flags.Publish(topic, payload)) == [Flags.PUBLISH] + U16(|t|) + t + payload;
    ParseFrameOf(Flags.PUBLISH, t, payload);
  }

  /** The empty SUBSCRIBE/UNSUBSCRIBE frames the broker builds are not
      Readable: this client would read past their end. */
  lemma ClientCannotReadControl(m: Flags.Msg)
    requires !m.Publish?
    ensures !Readable(Flags.BuildMessage(m))
  {
  }
}
