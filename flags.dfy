/** The broker's frame codec (autobahn-rust/src/flags.rs).

    `parse_message` reads `[flag u8][topic_len u32 BE][topic][payload_len u32 BE][payload]`;
    `build_message` writes `[0x03][topic_len u16 BE][topic][payload]` for PUBLISH and nothing
    at all for SUBSCRIBE/UNSUBSCRIBE. The two are therefore not inverse to each other: each
    matches the other language's client instead (see module LidarAutobahn). */
module Flags {
  import opened Bytes
  import opened Utf8
  import opened Wrappers

  /** `Msg`; a Rust `String` topic is a sequence of Unicode scalar values. */
  datatype Msg = Subscribe(topic: string) | Unsubscribe(topic: string) | Publish(topic: string, payload: seq<byte>)

  /** What `parse_message` does with a buffer: `Some(msg)`, `None`, or a panic
      inside `get_u32`/`copy_to_bytes` on a truncated buffer. */
  datatype Parsed = Frame(msg: Msg) | NoFrame | Panics

  const SUBSCRIBE: byte := 0x01
  const UNSUBSCRIBE: byte := 0x02
  const PUBLISH: byte := 0x03

  /** `get_flag`. */
  function GetFlag(m: Msg): (f: byte)
    ensures f in {SUBSCRIBE, UNSUBSCRIBE, PUBLISH}
    ensures (f == SUBSCRIBE <==> m.Subscribe?) && (f == UNSUBSCRIBE <==> m.Unsubscribe?) && (f == PUBLISH <==> m.Publish?)
  {
    match m
    case Subscribe(_) => SUBSCRIBE
    case Unsubscribe(_) => UNSUBSCRIBE
    case Publish(_, _) => PUBLISH
  }

  /** `parse_message`. The topic is read (and must be well-formed UTF-8)
      before the flag is looked at; only PUBLISH reads a payload, and bytes
      after the frame are ignored. */
  function ParseMessage(data: seq<byte>): (r: Parsed)
    ensures |data| == 0 ==> r == NoFrame
    ensures r.Frame? ==> data[0] == GetFlag(r.msg)
  {
    if |data| == 0 then NoFrame
    else if |data| < 5 then Panics
    else ParseBody(data[0], ReadU32(data, 1), data[5..])
  }

  /** The part of `parse_message` after `get_u8` and the first `get_u32`:
      `rest` is what remains of the buffer. */
  function ParseBody(flag: byte, topicLen: nat, rest: seq<byte>): (r: Parsed)
    ensures r.Frame? ==> flag == GetFlag(r.msg)
  {
    if |rest| < topicLen then Panics
    else match Decode(rest[..topicLen])
      case None => NoFrame
      case Some(topic) =>
        if flag == SUBSCRIBE then Frame(Subscribe(topic))
        else if flag == UNSUBSCRIBE then Frame(Unsubscribe(topic))
        else if flag == PUBLISH then
          match ReadPayload(rest[topicLen..])
          case None => Panics
          case Some(payload) => Frame(Publish(topic, payload))
        else NoFrame
  }

  /** What a parsed frame was read from: the flag, the topic's byte length
      as a u32, the topic's UTF-8 bytes and, for PUBLISH, the payload length
      as a u32 and the payload. */
  lemma ParseLayout(data: seq<byte>)
    requires ParseMessage(data).Frame?
    ensures var m := ParseMessage(data).msg; var t := Encode(m.topic);
      |data| >= 5 + |t| && ReadU32(data, 1) == |t| && data[5..5 + |t|] == t
    ensures var m := ParseMessage(data).msg; var at := 5 + |Encode(m.topic)|;
      m.Publish? ==>
        (|data| >= at + 4 + |m.payload| && ReadU32(data, at) == |m.payload|
         && data[at + 4..at + 4 + |m.payload|] == m.payload)
  {
    var m := ParseMessage(data).msg;
    var n := ReadU32(data, 1);
    var rest := data[5..];
    BodyLayout(data[0], n, rest);
    assert rest[..n] == data[5..5 + n];
    if m.Publish? {
      var at := 5 + n;
      assert rest[n..] == data[at..];
      assert ReadU32(data, at) == ReadU32(data[at..], 0);
      assert data[at..][4..4 + |m.payload|] == data[at + 4..at + 4 + |m.payload|];
    }
  }

  lemma BodyLayout(flag: byte, n: nat, rest: seq<byte>)
    requires ParseBody(flag, n, rest).Frame?
    ensures var m := ParseBody(flag, n, rest).msg;
      n <= |rest| && n == |Encode(m.topic)| && rest[..n] == Encode(m.topic)
    ensures var m := ParseBody(flag, n, rest).msg;
      m.Publish? ==> (n <= |rest| && ReadPayload(rest[n..]) == Some(m.payload))
  {
    var m := ParseBody(flag, n, rest).msg;
    var t := rest[..n];
    assert Decode(t) == Some(m.topic);
    EncodeDecode(t);
  }

  /** The second `get_u32` and `copy_to_bytes`; None where they would panic. */
  function ReadPayload(rest: seq<byte>): (r: Option<seq<byte>>)
    ensures r.Some? ==> |rest| >= 4 + |r.value| && ReadU32(rest, 0) == |r.value| && rest[4..4 + |r.value|] == r.value
  {
    if |rest| < 4 then None
    else
      var n := ReadU32(rest, 0);
      if |rest| < 4 + n then None else Some(rest[4..4 + n])
  }

  /** `build_message`: `topic.len() as u16` keeps the byte length mod 2^16,
      and no payload length is written. */
  function BuildMessage(m: Msg): (r: seq<byte>)
    ensures !m.Publish? ==> r == []
    ensures m.Publish? ==> |r| == 3 + |Encode(m.topic)| + |m.payload| && r[0] == GetFlag(m)
    ensures m.Publish? ==> r[3..3 + |Encode(m.topic)|] == Encode(m.topic) && r[3 + |Encode(m.topic)|..] == m.payload
  {
    match m
    case Publish(topic, payload) =>
      var t := Encode(topic);
      var r := [PUBLISH] + U16(|t|) + t + payload;
      assert r[3..3 + |t|] == t;
      assert r[3 + |t|..] == payload;
      r
    case _ => []
  }

  /** The layout the module's own header comment gives, `[flag][length][topic][length][payload]`:
      the encoding `parse_message` reads, for every kind of message. */
  function BuildFrame(m: Msg): (r: seq<byte>)
  {
    var t := Encode(m.topic);
    match m
    case Publish(_, payload) => [GetFlag(m)] + U32(|t|) + t + U32(|payload|) + payload
    case _ => [GetFlag(m)] + U32(|t|) + t
  }

  /** A SUBSCRIBE/UNSUBSCRIBE frame `[0x01|0x02][u32 n][n UTF-8 bytes]` parses
      to that message, whatever follows it. */
  lemma ParseTopicFrame(flag: byte, topic: string, rest: seq<byte>)
    requires flag == SUBSCRIBE || flag == UNSUBSCRIBE
    requires |Encode(topic)| < TWO32
    ensures ParseMessage([flag] + U32(|Encode(topic)|) + Encode(topic) + rest)
         == Frame(if flag == SUBSCRIBE then Subscribe(topic) else Unsubscribe(topic))
  {
    var t := Encode(topic);
    var data := [flag] + U32(|t|) + t + rest;
    assert data[1..5] == U32(|t|);
    ReadU32Slice(data, 1, |t|);
    assert data[5..] == t + rest;
    TopicBody(flag, topic, rest);
    ParseMessageUnfold(data);
  }

  lemma TopicBody(flag: byte, topic: string, rest: seq<byte>)
    requires flag == SUBSCRIBE || flag == UNSUBSCRIBE
    ensures ParseBody(flag, |Encode(topic)|, Encode(topic) + rest)
         == Frame(if flag == SUBSCRIBE then Subscribe(topic) else Unsubscribe(topic))
  {
    var t := Encode(topic);
    assert (t + rest)[..|t|] == t;
    DecodeEncode(topic);
  }

  /** A PUBLISH frame with both u32 lengths parses to that message; bytes
      after the payload are ignored. */
  lemma ParsePublishFrame(topic: string, payload: seq<byte>, rest: seq<byte>)
    requires |Encode(topic)| < TWO32 && |payload| < TWO32
    ensures ParseMessage([PUBLISH] + U32(|Encode(topic)|) + Encode(topic) + U32(|payload|) + payload + rest)
         == Frame(Publish(topic, payload))
  {
    var t := Encode(topic);
    var tail := U32(|payload|) + payload + rest;
    var data := [PUBLISH] + U32(|t|) + t + U32(|payload|) + payload + rest;
    assert data == [PUBLISH] + U32(|t|) + (t + tail);
    assert data[1..5] == U32(|t|);
    ReadU32Slice(data, 1, |t|);
    assert data[5..] == t + tail;
    ReadPayloadOf(payload, rest);
    PublishBody(topic, tail, payload);
    ParseMessageUnfold(data);
  }

  /** `parse_message` on a buffer of at least five bytes is its body applied
      to the flag, the first u32 and what follows. */
  lemma ParseMessageUnfold(data: seq<byte>)
    requires |data| >= 5
    ensures ParseMessage(data) == ParseBody(data[0], ReadU32(data, 1), data[5..])
  {
  }

  lemma ReadPayloadOf(payload: seq<byte>, rest: seq<byte>)
    requires |payload| < TWO32
    ensures ReadPayload(U32(|payload|) + payload + rest) == Some(payload)
  {
    var tail := U32(|payload|) + payload + rest;
    assert tail[0..4] == U32(|payload|);
    ReadU32Slice(tail, 0, |payload|);
    assert tail[4..4 + |payload|] == payload;
  }

  lemma PublishBody(topic: string, tail: seq<byte>, payload: seq<byte>)
    requires ReadPayload(tail) == Some(payload)
    ensures ParseBody(PUBLISH, |Encode(topic)|, Encode(topic) + tail) == Frame(Publish(topic, payload))
  {
    var t := Encode(topic);
    assert (t + tail)[..|t|] == t;
    assert (t + tail)[|t|..] == tail;
    DecodeEncode(topic);
  }

  /** A flag other than 0x01..0x03 yields None, but only once the topic has
      been read: a frame too short for its declared topic panics instead. */
  lemma ParseUnknownFlag(data: seq<byte>)
    requires |data| >= 5 && data[0] !in {SUBSCRIBE, UNSUBSCRIBE, PUBLISH}
    ensures ParseMessage(data) == (if |data| < 5 + ReadU32(data, 1) then Panics else NoFrame)
  {
    ParseMessageUnfold(data);
  }

  /** A topic that is not well-formed UTF-8 yields None, not a panic. */
  lemma ParseBadTopic(data: seq<byte>)
    requires |data| >= 5 && |data| >= 5 + ReadU32(data, 1)
    requires !Valid(data[5..5 + ReadU32(data, 1)])
    ensures ParseMessage(data) == NoFrame
  {
    var n := ReadU32(data, 1);
    assert data[5..][..n] == data[5..5 + n];
    ParseMessageUnfold(data);
  }

  /** Buffers of one to four bytes panic in `get_u32`. */
  lemma ParseShortPanics(data: seq<byte>)
    requires 1 <= |data| < 5
    ensures ParseMessage(data) == Panics
  {
  }

  /** Whatever parses was produced by BuildFrame, up to trailing bytes:
      `parse_message` reads exactly the module's documented layout. */
  lemma ParseIsBuildFrame(data: seq<byte>)
    requires ParseMessage(data).Frame?
    ensures var m := ParseMessage(data).msg; BuildFrame(m) <= data
  {
    var m := ParseMessage(data).msg;
    var t := Encode(m.topic);
    var n := ReadU32(data, 1);
    ParseLayout(data);
    U32OfRead(data, 1);
    assert [GetFlag(m)] <= data;
    PrefixExtend(data, [GetFlag(m)], U32(n));
    PrefixExtend(data, [GetFlag(m)] + U32(n), t);
    if m.Publish? {
      var at := 5 + n;
      var pl := ReadU32(data, at);
      U32OfRead(data, at);
      PrefixExtend(data, [GetFlag(m)] + U32(n) + t, U32(pl));
      PrefixExtend(data, [GetFlag(m)] + U32(n) + t + U32(pl), m.payload);
    }
  }

  /** A prefix followed, in `data`, by `b` extends to the prefix `a + b`. */
  lemma PrefixExtend(data: seq<byte>, a: seq<byte>, b: seq<byte>)
    requires a <= data && |a| + |b| <= |data| && data[|a|..|a| + |b|] == b
    ensures a + b <= data
  {
    assert data[..|a| + |b|] == data[..|a|] + data[|a|..|a| + |b|];
  }

  /** BuildFrame and ParseMessage are inverse: every message whose lengths fit
      in a u32 survives the round trip. */
  lemma BuildFrameRoundTrip(m: Msg)
    requires |Encode(m.topic)| < TWO32
    requires m.Publish? ==> |m.payload| < TWO32
    ensures ParseMessage(BuildFrame(m)) == Frame(m)
  {
    var t := Encode(m.topic);
    match m
    case Publish(topic, payload) =>
      ParsePublishFrame(topic, payload, []);
      assert BuildFrame(m) == [PUBLISH] + U32(|t|) + t + U32(|payload|) + payload + [];
    case Subscribe(topic) =>
      ParseTopicFrame(SUBSCRIBE, topic, []);
      assert BuildFrame(m) == [SUBSCRIBE] + U32(|t|) + t + [];
    case Unsubscribe(topic) =>
      ParseTopicFrame(UNSUBSCRIBE, topic, []);
      assert BuildFrame(m) == [UNSUBSCRIBE] + U32(|t|) + t + [];
  }

  /** As written, the SUBSCRIBE/UNSUBSCRIBE frame the broker builds is empty,
      and `parse_message` of it is None: the receiving broker treats it as a
      parse failure and closes the connection. */
  lemma BuildControlIsUnparseable(m: Msg)
    requires !m.Publish?
    ensures BuildMessage(m) == [] && ParseMessage(BuildMessage(m)) == NoFrame
  {
  }

  /** `build_message` is not the inverse of `parse_message`: the empty
      PUBLISH it builds makes `parse_message` panic. */
  lemma BuildPublishNotInverse()
    ensures ParseMessage(BuildMessage(Publish("", []))) == Panics
  {
    assert BuildMessage(Publish("", [])) == [PUBLISH, 0, 0];
  }
}
