/**
 * The producer: publishing one message to a topic as a signed POST of a
 * `<Message>` document, and reading back the service's reply.
 */
module Producer {
  import opened Wrappers
  import opened Text
  import opened Http
  import opened Message
  import opened Primitives
  import opened Client
  import Consumer
  import Conf

  /** A producer owns a snapshot of its options and its client; the group is stored but never read. */
  datatype Producer = Producer(group: Option<string>, topic: string, client: Client)
  {
    /** `Producer::new`. */
    static function New(option: Conf.ProducerOption, clientOption: Conf.ClientOption): (p: Producer)
      reads option, clientOption
      ensures p.group == option.GetGroup() && p.topic == option.GetTopic()
      ensures p.client == Client.New(clientOption)
    {
      Producer(option.group, option.topic, Client.New(clientOption))
    }
  }

  /** The query parameters of a publish call: only the namespace, when configured. */
  function PublishParams(p: Producer): (params: map<string, string>)
    ensures "ns" in params <==> p.client.namespace.Some?
    ensures p.client.namespace.Some? ==> params["ns"] == p.client.namespace.value
    ensures params.Keys <= {"ns"}
  {
    if p.client.namespace.Some? then map["ns" := p.client.namespace.value] else map[]
  }

  /** The request record `publish_message` builds: the tag is always present, even when it is empty. */
  function PublishRequest(body: string, tag: string, props: Properties): (req: PublishMessageRequest)
    ensures req.messageBody == body && req.messageTag == Some(tag) && req.properties == props
  {
    PublishMessageRequest(body, Some(tag), props)
  }

  /** The reply text and, from it, the result: a body that does not decode is `Xml`. */
  function PublishReply(env: Env, reply: Result<Response, ClientError>): Result<PublishMessageResponse, ClientError> {
    match reply
    case Err(e) => Err(e)
    case Ok(resp) =>
      match resp.text
      case None => Err(Transport)
      case Some(text) =>
        match env.readPublishResponse(text)
        case None => Err(Xml)
        case Some(answer) => Ok(answer)
  }

  /**
   * What `publish_message` yields, given the text the property serializer
   * produced (which depends on the map's iteration order).
   */
  function PublishResult(p: Producer, env: Env, body: string, tag: string, props: Properties,
                         propertiesText: string, date: string)
    : Result<PublishMessageResponse, ClientError>
  {
    var resource := Consumer.MessagesResource(p.topic, env.urlEncode(PublishParams(p)));
    match env.writeXml(PublishRequestXml(PublishRequest(body, tag, props), propertiesText))
    case None => Err(Xml)
    case Some(doc) => PublishReply(env, Exchange(p.client, env, POST, resource, Some(doc), date))
  }

  /**
   * `publish_message`: builds the request, the namespace parameter and the
   * resource, writes the `<Message>` document (serializing the properties
   * only when the map is not empty), POSTs it and decodes the reply.
   * `order` is the iteration order the property serializer followed.
   */
  method PublishMessage(p: Producer, env: Env, body: string, tag: string, props: Properties, date: string)
    returns (r: Result<PublishMessageResponse, ClientError>, ghost order: seq<string>)
    requires ValidEnv(env) && IsHeaderValueText(date) && HeaderSafe(p.client)
    ensures IsEnumeration(order, props)
    ensures r == PublishResult(p, env, body, tag, props, JoinPairs(Entries(props, order)), date)
  {
    var request := PublishMessageRequest(body, Some(tag), props);
    var params: map<string, string> := map[];
    if p.client.namespace.Some? {
      params := params["ns" := p.client.namespace.value];
    }
    var query := env.urlEncode(params);
    var resource := Consumer.MessagesResource(p.topic, query);
    var propertiesText := "";
    order := [];
    if !SkipProperties(request.properties) {
      propertiesText, order := SerializeProperties(request.properties);
    } else {
      assert props == map[];
    }
    var doc := env.writeXml(PublishRequestXml(request, propertiesText));
    if doc.None? {
      return Err(Xml), order;
    }
    var reply := Post(p.client, env, resource, doc.value, date);
    if reply.Err? {
      return Err(reply.error), order;
    }
    var text := reply.value.text;
    if text.None? {
      return Err(Transport), order;
    }
    var answer := env.readPublishResponse(text.value);
    if answer.None? {
      return Err(Xml), order;
    }
    r := Ok(answer.value);
  }

  /**
   * The outcomes of a publish: `Xml` exactly when the document cannot be
   * written or the reply body does not decode; `Signature` exactly when the
   * document was written and the key is refused; never `UnsupportedMethod`;
   * and, when document and key are fine, the request sent is a POST whose
   * body is the written document.
   */
  lemma PublishOutcomes(p: Producer, env: Env, body: string, tag: string, props: Properties,
                        propertiesText: string, date: string)
    ensures var r := PublishResult(p, env, body, tag, props, propertiesText, date);
      var doc := env.writeXml(PublishRequestXml(PublishRequest(body, tag, props), propertiesText));
      var resource := Consumer.MessagesResource(p.topic, env.urlEncode(PublishParams(p)));
      var reply := if doc.None? then Err(Xml) else Exchange(p.client, env, POST, resource, doc, date);
      && (r == Err(Xml) <==>
            doc.None? || (reply.Ok? && reply.value.text.Some? && env.readPublishResponse(reply.value.text.value).None?))
      && (r == Err(Signature) <==> doc.Some? && !env.hmacAcceptsKey(Utf8(p.client.accessKeySecret)))
      && r != Err(UnsupportedMethod)
      && (doc.Some? && env.hmacAcceptsKey(Utf8(p.client.accessKeySecret)) ==>
            r == PublishReply(env, Send(env, HttpRequest(POST, p.client.endpoint + resource,
                                        SignedHeaders(p.client, env, POST, resource, doc, date).value, doc))))
  {
    var doc := env.writeXml(PublishRequestXml(PublishRequest(body, tag, props), propertiesText));
    var resource := Consumer.MessagesResource(p.topic, env.urlEncode(PublishParams(p)));
    if doc.Some? {
      ExchangeOutcome(p.client, env, POST, resource, doc, date);
    }
  }

  /**
   * The document handed to the XML writer carries the body, the tag, and a
   * `<Properties>` text exactly when the map is not empty; that text, in
   * whatever order the map was walked, parses back to the very map when
   * keys and values avoid `:` and `|` (and keys are not empty).
   */
  lemma PublishDocument(body: string, tag: string, props: Properties, order: seq<string>)
    requires IsEnumeration(order, props)
    ensures var doc := PublishRequestXml(PublishRequest(body, tag, props), JoinPairs(Entries(props, order)));
      && doc.name == "Message"
      && ChildText(doc.children, "MessageBody") == Some(body)
      && ChildText(doc.children, "MessageTag") == Some(tag)
      && (ChildText(doc.children, "Properties").Some? <==> |props| != 0)
      && (WellFormedProperties(props) && |props| != 0 ==>
            ParsedProperties(ChildText(doc.children, "Properties").value) == props)
  {
    var text := JoinPairs(Entries(props, order));
    PublishRequestXmlFields(PublishRequest(body, tag, props), text);
    if WellFormedProperties(props) {
      PropertiesRoundTrip(props, order);
    }
  }

  /** The producer's group never influences a publish. */
  lemma PublishIgnoresGroup(p: Producer, group: Option<string>, env: Env, body: string, tag: string,
                            props: Properties, propertiesText: string, date: string)
    ensures PublishResult(p.(group := group), env, body, tag, props, propertiesText, date)
         == PublishResult(p, env, body, tag, props, propertiesText, date)
  {
  }
}
