/** The Python peer protocol (autobahn_python/message.py).

    A message is a one-byte tag followed by its body: `p` (PUBLISH) carries a
    u8 topic length, the UTF-8 topic, a u32 id and the payload; `s`
    (SUBSCRIBE) and `t` (TOPIC_LIST) carry a JSON object. Python exceptions
    are the `Err` side of a `Result`. The JSON codec (`json.dumps` and
    `json.loads`) is a parameter of the model. */
module PeerMessage {
  import opened Wrappers
  import opened Bytes
  import opened Utf8
  import opened JsonValue

  /** The exceptions the encoders and decoders raise. */
  datatype Error =
    | ValueError        // unknown tag; also what `json.loads` raises on bad input
    | StructError       // `struct.pack`/`struct.unpack` out of range or short
    | UnicodeDecodeError
    | KeyError
    | TypeError         // indexing a JSON value that is not an object
    | AssertionError    // a class's `from_bytes` given another class's tag

  /** The dataclasses. SUBSCRIBE and TOPIC_LIST take whatever JSON values the
      decoded object holds: the field annotations are not checked. (Their
      `topic` and `id` fields are named apart from PUBLISH's, whose types
      differ.) */
  datatype Message =
    | Publish(topic: string, id: int, payload: seq<byte>)
    | Subscribe(subTopic: Json, subId: Json)
    | TopicList(topics: Json, listId: Json)

  /** `json.dumps` and `json.loads` as opaque functions. */
  datatype JsonCodec = JsonCodec(dumps: Json -> string, loads: seq<byte> -> Result<Json, Error>)

  const TAG_PUBLISH: byte := 0x70     // b"p"
  const TAG_SUBSCRIBE: byte := 0x73   // b"s"
  const TAG_TOPIC_LIST: byte := 0x74  // b"t"

  /** The `MessageType` value each class writes first and is dispatched on. */
  function Tag(m: Message): (t: byte)
    ensures t in {TAG_PUBLISH, TAG_SUBSCRIBE, TAG_TOPIC_LIST}
  {
    match m
    case Publish(_, _, _) => TAG_PUBLISH
    case Subscribe(_, _) => TAG_SUBSCRIBE
    case TopicList(_, _) => TAG_TOPIC_LIST
  }

  /** The JSON object a SUBSCRIBE or TOPIC_LIST body holds. */
  function Body(m: Message): Json
    requires !m.Publish?
  {
    match m
    case Subscribe(topic, id) => JObj(map["topic" := topic, "id" := id])
    case TopicList(topics, id) => JObj(map["topics" := topics, "id" := id])
  }

  /** `to_bytes`. PUBLISH packs the topic length with ">B" and the id with
      ">I", so either out of range raises struct.error. */
  function ToBytes(m: Message, codec: JsonCodec): (r: Result<seq<byte>, Error>)
    ensures r.Ok? ==> |r.value| > 0 && r.value[0] == Tag(m)
    ensures m.Publish? ==>
      (r.Err? <==> (|Encode(m.topic)| > 255 || m.id < 0 || m.id >= TWO32))
    ensures !m.Publish? ==> r == Ok([Tag(m)] + Encode(codec.dumps(Body(m))))
  {
    match m
    case Publish(topic, id, payload) =>
      var t := Encode(topic);
      if |t| > 255 || id < 0 || id >= TWO32 then Err(StructError)
      else Ok([TAG_PUBLISH, |t|] + t + U32(id) + payload)
    case _ => Ok([Tag(m)] + Encode(codec.dumps(Body(m))))
  }

  /** `MessagePublish.from_bytes`. Python slices clamp at the end of the
      buffer, so a short topic is decoded from what is there before the id
      is unpacked from too few bytes. */
  function PublishFromBytes(b: seq<byte>): (r: Result<Message, Error>)
    ensures |b| == 0 || b[0] != TAG_PUBLISH ==> r == Err(AssertionError)
    ensures r.Ok? ==>
      (r.value.Publish? && var t := Encode(r.value.topic);
       |b| >= 6 + |t| && b[1] == |t| && b[2..2 + |t|] == t
       && ReadU32(b, 2 + |t|) == r.value.id && b[6 + |t|..] == r.value.payload)
  {
    if |b| == 0 || b[0] != TAG_PUBLISH then Err(AssertionError)
    else if |b| < 2 then Err(StructError)
    else
      var n := b[1] as int;
      var end := if 2 + n <= |b| then 2 + n else |b|;
      match Decode(b[2..end])
      case None => Err(UnicodeDecodeError)
      case Some(topic) =>
        if |b| < 2 + n + 4 then Err(StructError)
        else
          EncodeDecode(b[2..end]);
          Ok(Publish(topic, ReadU32(b, 2 + n), b[2 + n + 4..]))
  }

  /** `data["topic"]`, `data["id"]` and the like on a decoded JSON value. */
  function Field(v: Json, key: string): Result<Json, Error>
  {
    match v
    case JObj(fields) => if key in fields then Ok(fields[key]) else Err(KeyError)
    case _ => Err(TypeError)
  }

  /** Both values are objects and `data` holds every key of `body` with the
      same value (other keys are ignored when a message is read). */
  predicate Extends(data: Json, body: Json)
  {
    data.JObj? && body.JObj?
    && forall k :: k in body.fields ==> k in data.fields && data.fields[k] == body.fields[k]
  }

  /** `MessageSubscribe.from_bytes` and `MessageTopicList.from_bytes`:
      `json.loads` of everything after the tag, then two field lookups. */
  function JsonFromBytes(b: seq<byte>, tag: byte, codec: JsonCodec): (r: Result<Message, Error>)
    requires tag == TAG_SUBSCRIBE || tag == TAG_TOPIC_LIST
    ensures r.Ok? ==> |b| > 0 && b[0] == tag && Tag(r.value) == tag
    ensures r.Ok? ==> codec.loads(b[1..]).Ok? && Extends(codec.loads(b[1..]).value, Body(r.value))
  {
    if |b| == 0 || b[0] != tag then Err(AssertionError)
    else
      var first := if tag == TAG_SUBSCRIBE then "topic" else "topics";
      match codec.loads(b[1..])
      case Err(e) => Err(e)
      case Ok(data) =>
        match Field(data, first)
        case Err(e) => Err(e)
        case Ok(x) =>
          match Field(data, "id")
          case Err(e) => Err(e)
          case Ok(id) =>
            Ok(if tag == TAG_SUBSCRIBE then Subscribe(x, id) else TopicList(x, id))
  }

  /** `Message.from_bytes`: dispatch on the first byte; anything else,
      including an empty buffer, raises ValueError. */
  function FromBytes(b: seq<byte>, codec: JsonCodec): (r: Result<Message, Error>)
    ensures r.Ok? ==> |b| > 0 && b[0] == Tag(r.value)
    ensures |b| == 0 || b[0] !in {TAG_PUBLISH, TAG_SUBSCRIBE, TAG_TOPIC_LIST} ==> r == Err(ValueError)
  {
    if |b| == 0 then Err(ValueError)
    else if b[0] == TAG_TOPIC_LIST then JsonFromBytes(b, TAG_TOPIC_LIST, codec)
    else if b[0] == TAG_SUBSCRIBE then JsonFromBytes(b, TAG_SUBSCRIBE, codec)
    else if b[0] == TAG_PUBLISH then PublishFromBytes(b)
    else Err(ValueError)
  }

  /** `Message.from_bytes` given a `str`: it is UTF-8 encoded first, so the
      empty string and a string whose first character is not `p`, `s` or `t`
      raise ValueError, and a decoded message has the first character's tag. */
  function FromText(s: string, codec: JsonCodec): (r: Result<Message, Error>)
    ensures s == [] || s[0] !in "pst" ==> r == Err(ValueError)
    ensures r.Ok? ==> s != [] && Tag(r.value) == s[0] as int
  {
    FromBytes(Encode(s), codec)
  }

  /** A PUBLISH whose topic fits a u8 length and whose id fits a u32 survives
      `to_bytes` then `from_bytes`. */
  lemma PublishRoundTrip(m: Message, codec: JsonCodec)
    requires m.Publish? && |Encode(m.topic)| <= 255 && 0 <= m.id < TWO32
    ensures ToBytes(m, codec).Ok? && FromBytes(ToBytes(m, codec).value, codec) == Ok(m)
  {
    var t := Encode(m.topic);
    var b := ToBytes(m, codec).value;
    var n := 2 + |t|;
    assert |b| >= n + 4 && b[0] == TAG_PUBLISH && b[1] == |t| && b[2..n] == t
        && b[n..n + 4] == U32(m.id) && b[n + 4..] == m.payload by {
      assert b == [TAG_PUBLISH, |t|] + t + U32(m.id) + m.payload;
    }
    assert ReadU32(b, n) == m.id by {
      ReadU32Slice(b, n, m.id);
    }
    DecodeEncode(m.topic);
    assert PublishFromBytes(b) == Ok(Publish(m.topic, m.id, m.payload));
  }

  /** A SUBSCRIBE or TOPIC_LIST survives the round trip whenever the JSON
      codec gives back the object it was handed. */
  lemma JsonRoundTrip(m: Message, codec: JsonCodec)
    requires !m.Publish?
    requires codec.loads(Encode(codec.dumps(Body(m)))) == Ok(Body(m))
    ensures FromBytes(ToBytes(m, codec).value, codec) == Ok(m)
  {
    var b := ToBytes(m, codec).value;
    assert b[1..] == Encode(codec.dumps(Body(m)));
  }

  /** Every encoding starts with its class's tag, so decoding it, when it
      succeeds, gives a message of the same class. */
  lemma SameKind(m: Message, codec: JsonCodec)
    requires ToBytes(m, codec).Ok? && FromBytes(ToBytes(m, codec).value, codec).Ok?
    ensures Tag(FromBytes(ToBytes(m, codec).value, codec).value) == Tag(m)
  {
  }

  /** A JSON body that is not an object raises TypeError, and an object
      without the expected keys raises KeyError. */
  lemma JsonBodyErrors(b: seq<byte>, codec: JsonCodec)
    requires |b| > 0 && b[0] == TAG_SUBSCRIBE && codec.loads(b[1..]).Ok?
    ensures var v := codec.loads(b[1..]).value;
      (!v.JObj? ==> FromBytes(b, codec) == Err(TypeError))
      && (v.JObj? && ("topic" !in v.fields || "id" !in v.fields) ==> FromBytes(b, codec) == Err(KeyError))
  {
  }

  /** A PUBLISH buffer that ends inside the id raises struct.error once its
      topic bytes have decoded. */
  lemma PublishTruncated(b: seq<byte>)
    requires |b| >= 2 && b[0] == TAG_PUBLISH
    requires 2 + b[1] as int <= |b| < 2 + b[1] as int + 4 && Valid(b[2..2 + b[1] as int])
    ensures FromBytes(b, JsonCodec(_ => "", _ => Err(ValueError))) == Err(StructError)
  {
  }
}
