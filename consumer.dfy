/**
 * The consumer: long-polling a topic for messages with a signed GET, and
 * acknowledging consumed messages with a signed DELETE that carries their
 * receipt handles.
 */
module Consumer {
  import opened Wrappers
  import opened Text
  import opened Http
  import opened Message
  import opened Primitives
  import opened Client
  import Conf

  /** A consumer owns a snapshot of its options (they are moved into it) and its client. */
  datatype Consumer = Consumer(group: string, topic: string, tag: Option<string>, client: Client)
  {
    /** `Consumer::new`. */
    static function New(option: Conf.ConsumerOption, clientOption: Conf.ClientOption): (c: Consumer)
      reads option, clientOption
      ensures c.group == option.GetGroup() && c.topic == option.GetTopic() && c.tag == option.GetTag()
      ensures c.client == Client.New(clientOption)
    {
      Consumer(option.group, option.topic, option.tag, Client.New(clientOption))
    }
  }

  /** The resource both operations address: the topic's message collection with a query string. */
  function MessagesResource(topic: string, query: string): string {
    "/topics/" + topic + "/messages?" + query
  }

  /** The query parameters of a consume call. */
  function ConsumeParams(c: Consumer, numberOfMessages: byte, waitSeconds: byte): (p: map<string, string>)
    ensures "consumer" in p && p["consumer"] == c.group
    ensures "numOfMessages" in p && p["numOfMessages"] == Decimal(numberOfMessages)
    ensures "waitSeconds" in p && p["waitSeconds"] == Decimal(waitSeconds)
    ensures DecimalValue(p["numOfMessages"]) == numberOfMessages && DecimalValue(p["waitSeconds"]) == waitSeconds
    ensures "tag" in p <==> c.tag.Some?
    ensures c.tag.Some? ==> p["tag"] == c.tag.value
    ensures "ns" in p <==> c.client.namespace.Some?
    ensures c.client.namespace.Some? ==> p["ns"] == c.client.namespace.value
    ensures p.Keys <= {"consumer", "numOfMessages", "waitSeconds", "tag", "ns"}
  {
    DecimalRoundTrip(numberOfMessages);
    DecimalRoundTrip(waitSeconds);
    var base := map["consumer" := c.group, "numOfMessages" := Decimal(numberOfMessages),
                    "waitSeconds" := Decimal(waitSeconds)];
    var withTag := if c.tag.Some? then base["tag" := c.tag.value] else base;
    if c.client.namespace.Some? then withTag["ns" := c.client.namespace.value] else withTag
  }

  /** A `u8` prints in at most three decimal digits, with no sign and no leading zero. */
  lemma ConsumeCountsAreShort(c: Consumer, numberOfMessages: byte, waitSeconds: byte)
    ensures var p := ConsumeParams(c, numberOfMessages, waitSeconds);
      && 1 <= |p["numOfMessages"]| <= 3 && AllDigits(p["numOfMessages"])
      && 1 <= |p["waitSeconds"]| <= 3 && AllDigits(p["waitSeconds"])
  {
    assert Pow10(3) == 1000 by {
      assert Pow10(1) == 10;
      assert Pow10(2) == 100;
    }
    DecimalLength(numberOfMessages, 3);
    DecimalLength(waitSeconds, 3);
  }

  /** The query determines the counts: different counts never produce the same parameters. */
  lemma ConsumeParamsDetermineCounts(c: Consumer, n1: byte, w1: byte, n2: byte, w2: byte)
    requires ConsumeParams(c, n1, w1) == ConsumeParams(c, n2, w2)
    ensures n1 == n2 && w1 == w2
  {
    var p := ConsumeParams(c, n1, w1);
    assert Decimal(n1) == p["numOfMessages"] == Decimal(n2);
    assert Decimal(w1) == p["waitSeconds"] == Decimal(w2);
    DecimalInjective(n1, n2);
    DecimalInjective(w1, w2);
  }

  /** How a call of `consumer_message` ends: a value returned (`Ok` or `Err`), or a panic in `unwrap`. */
  datatype ConsumeOutcome = Returned(result: Result<ConsumerResponse, ClientError>) | Panicked

  /** The reply text and, from it, the outcome: a body that does not decode panics. */
  function ConsumeReply(env: Env, reply: Result<Response, ClientError>): ConsumeOutcome {
    match reply
    case Err(e) => Returned(Err(e))
    case Ok(resp) =>
      match resp.text
      case None => Returned(Err(Transport))
      case Some(text) =>
        match env.readConsumerResponse(text)
        case None => Panicked
        case Some(raw) => Returned(Ok(DecodeConsumerResponse(raw)))
  }

  /** What `consumer_message` yields. */
  function ConsumeResult(c: Consumer, env: Env, numberOfMessages: byte, waitSeconds: byte, date: string): ConsumeOutcome {
    var resource := MessagesResource(c.topic, env.urlEncode(ConsumeParams(c, numberOfMessages, waitSeconds)));
    ConsumeReply(env, Exchange(c.client, env, GET, resource, None, date))
  }

  /**
   * `consumer_message`: builds the parameter map insert by insert, encodes
   * it, GETs the messages resource and decodes the reply.
   */
  method ConsumeMessage(c: Consumer, env: Env, numberOfMessages: byte, waitSeconds: byte, date: string)
    returns (outcome: ConsumeOutcome)
    requires ValidEnv(env) && IsHeaderValueText(date) && HeaderSafe(c.client)
    ensures outcome == ConsumeResult(c, env, numberOfMessages, waitSeconds, date)
  {
    var count := Decimal(numberOfMessages);
    var wait := Decimal(waitSeconds);
    var params: map<string, string> := map[];
    params := params["consumer" := c.group];
    params := params["numOfMessages" := count];
    params := params["waitSeconds" := wait];
    if c.tag.Some? {
      params := params["tag" := c.tag.value];
    }
    if c.client.namespace.Some? {
      params := params["ns" := c.client.namespace.value];
    }
    assert params == ConsumeParams(c, numberOfMessages, waitSeconds);
    var query := env.urlEncode(params);
    var resource := MessagesResource(c.topic, query);
    var reply := Get(c.client, env, resource, date);
    if reply.Err? {
      return Returned(Err(reply.error));
    }
    var text := reply.value.text;
    if text.None? {
      return Returned(Err(Transport));
    }
    var raw := env.readConsumerResponse(text.value);
    if raw.None? {
      return Panicked;
    }
    outcome := Returned(Ok(DecodeConsumerResponse(raw.value)));
  }

  /**
   * The outcomes of a consume call: a refused key is `Signature` and
   * nothing else is; the call never reports `Xml` or `UnsupportedMethod`
   * (an undecodable reply panics instead); it panics exactly when a reply
   * body arrived and the reader rejected it; and every message delivered
   * carries a well-formed property map and the receipt handle the reader saw.
   */
  lemma ConsumeOutcomes(c: Consumer, env: Env, numberOfMessages: byte, waitSeconds: byte, date: string)
    ensures var o := ConsumeResult(c, env, numberOfMessages, waitSeconds, date);
      var resource := MessagesResource(c.topic, env.urlEncode(ConsumeParams(c, numberOfMessages, waitSeconds)));
      var reply := Exchange(c.client, env, GET, resource, None, date);
      && (o == Returned(Err(Signature)) <==> !env.hmacAcceptsKey(Utf8(c.client.accessKeySecret)))
      && o != Returned(Err(Xml))
      && o != Returned(Err(UnsupportedMethod))
      && (o == Panicked <==>
            reply.Ok? && reply.value.text.Some? && env.readConsumerResponse(reply.value.text.value).None?)
      && (o.Returned? && o.result.Ok? && o.result.value.Messages? ==>
            forall i :: 0 <= i < |o.result.value.batch.messages| ==>
              WellFormedProperties(o.result.value.batch.messages[i].properties))
  {
    var resource := MessagesResource(c.topic, env.urlEncode(ConsumeParams(c, numberOfMessages, waitSeconds)));
    ConsumeReplyOutcomes(c.client, env, resource, date);
  }

  /** The outcomes of decoding the reply to a signed GET of any resource. */
  lemma ConsumeReplyOutcomes(client: Client, env: Env, resource: string, date: string)
    ensures var reply := Exchange(client, env, GET, resource, None, date);
      var o := ConsumeReply(env, reply);
      && (o == Returned(Err(Signature)) <==> !env.hmacAcceptsKey(Utf8(client.accessKeySecret)))
      && o != Returned(Err(Xml))
      && o != Returned(Err(UnsupportedMethod))
      && (o == Panicked <==>
            reply.Ok? && reply.value.text.Some? && env.readConsumerResponse(reply.value.text.value).None?)
      && (o.Returned? && o.result.Ok? && o.result.value.Messages? ==>
            forall i :: 0 <= i < |o.result.value.batch.messages| ==>
              WellFormedProperties(o.result.value.batch.messages[i].properties))
  {
    ExchangeOutcome(client, env, GET, resource, None, date);
  }

  /** When the key is accepted, the request sent is a signed GET of the messages resource, without a body. */
  lemma ConsumeRequest(c: Consumer, env: Env, numberOfMessages: byte, waitSeconds: byte, date: string)
    requires env.hmacAcceptsKey(Utf8(c.client.accessKeySecret))
    ensures var resource := MessagesResource(c.topic, env.urlEncode(ConsumeParams(c, numberOfMessages, waitSeconds)));
      var h := SignedHeaders(c.client, env, GET, resource, None, date);
      && h.Ok?
      && ConsumeResult(c, env, numberOfMessages, waitSeconds, date)
         == ConsumeReply(env, Send(env, HttpRequest(GET, c.client.endpoint + resource, h.value, None)))
      && Lookup(h.value, "content-length") == None && Lookup(h.value, "content-md5") == None
  {
    var resource := MessagesResource(c.topic, env.urlEncode(ConsumeParams(c, numberOfMessages, waitSeconds)));
    ExchangeOutcome(c.client, env, GET, resource, None, date);
    SignedHeadersFailure(c.client, env, GET, resource, None, date);
    SignedHeaderValues(c.client, env, GET, resource, None, date);
  }

  // ---------------------------------------------------------------------
  // ack
  // ---------------------------------------------------------------------

  /** The query parameters of an ack call: the namespace if configured, and the consumer group. */
  function AckParams(c: Consumer): (p: map<string, string>)
    ensures "consumer" in p && p["consumer"] == c.group
    ensures "ns" in p <==> c.client.namespace.Some?
    ensures c.client.namespace.Some? ==> p["ns"] == c.client.namespace.value
    ensures p.Keys <= {"consumer", "ns"}
  {
    var withNs: map<string, string> := if c.client.namespace.Some? then map["ns" := c.client.namespace.value] else map[];
    withNs["consumer" := c.group]
  }

  /** What `ack` yields: `Xml` when the document cannot be written, else the signed DELETE carrying it. */
  function AckResult(c: Consumer, env: Env, receiptHandles: seq<string>, date: string): Result<Response, ClientError> {
    var resource := MessagesResource(c.topic, env.urlEncode(AckParams(c)));
    match env.writeXml(AckRequestXml(AckMessageRequest(receiptHandles)))
    case None => Err(Xml)
    case Some(doc) => Exchange(c.client, env, DELETE, resource, Some(doc), date)
  }

  /** `ack`: builds the parameters, writes the `<ReceiptHandles>` document and DELETEs it to the messages resource. */
  method Ack(c: Consumer, env: Env, receiptHandles: seq<string>, date: string) returns (r: Result<Response, ClientError>)
    requires ValidEnv(env) && IsHeaderValueText(date) && HeaderSafe(c.client)
    ensures r == AckResult(c, env, receiptHandles, date)
  {
    var params: map<string, string> := map[];
    if c.client.namespace.Some? {
      params := params["ns" := c.client.namespace.value];
    }
    params := params["consumer" := c.group];
    var query := env.urlEncode(params);
    var ack := AckMessageRequest(receiptHandles);
    var doc := env.writeXml(AckRequestXml(ack));
    if doc.None? {
      return Err(Xml);
    }
    var resource := MessagesResource(c.topic, query);
    r := Delete(c.client, env, resource, doc.value, date);
  }

  /**
   * The outcomes of an ack: `Xml` exactly when the document cannot be
   * written; otherwise `Signature` exactly when the key is refused; never
   * `UnsupportedMethod`; and, when both succeed, the request sent is a
   * DELETE whose body is the written document, which lists every receipt
   * handle in the order given.
   */
  lemma AckOutcomes(c: Consumer, env: Env, receiptHandles: seq<string>, date: string)
    ensures var r := AckResult(c, env, receiptHandles, date);
      var doc := env.writeXml(AckRequestXml(AckMessageRequest(receiptHandles)));
      var resource := MessagesResource(c.topic, env.urlEncode(AckParams(c)));
      && (r == Err(Xml) <==> doc.None?)
      && (r == Err(Signature) <==> doc.Some? && !env.hmacAcceptsKey(Utf8(c.client.accessKeySecret)))
      && r != Err(UnsupportedMethod)
      && (doc.Some? && env.hmacAcceptsKey(Utf8(c.client.accessKeySecret)) ==>
            r == Send(env, HttpRequest(DELETE, c.client.endpoint + resource,
                                       SignedHeaders(c.client, env, DELETE, resource, doc, date).value, doc)))
      && HandlesOf(AckRequestXml(AckMessageRequest(receiptHandles)).children) == receiptHandles
  {
    var doc := env.writeXml(AckRequestXml(AckMessageRequest(receiptHandles)));
    var resource := MessagesResource(c.topic, env.urlEncode(AckParams(c)));
    if doc.Some? {
      ExchangeOutcome(c.client, env, DELETE, resource, doc, date);
    }
    AckRequestXmlHandles(AckMessageRequest(receiptHandles));
  }
}
