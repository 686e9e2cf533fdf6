/**
 * The option records callers fill in before building a producer or a
 * consumer. Each setter overwrites exactly one field; an optional field,
 * once set, stays set, because no operation clears it.
 */
module Conf {
  import opened Wrappers

  class ClientOption {
    var endpoint: string
    var accessKeyId: string
    var accessKeySecret: string
    var securityToken: Option<string>
    var namespace: Option<string>

    /** `ClientOption::default()`. */
    constructor Default()
      ensures endpoint == "localhost:8081"
      ensures accessKeyId == "" && accessKeySecret == ""
      ensures securityToken == None && namespace == None
    {
      endpoint := "localhost:8081";
      accessKeyId := "";
      accessKeySecret := "";
      securityToken := None;
      namespace := None;
    }

    method SetEndpoint(endpoint: string)
      modifies this
      ensures GetEndpoint() == endpoint
      ensures accessKeyId == old(accessKeyId) && accessKeySecret == old(accessKeySecret)
      ensures securityToken == old(securityToken) && namespace == old(namespace)
    {
      this.endpoint := endpoint;
    }

    function GetEndpoint(): string
      reads this
    {
      endpoint
    }

    method SetAccessKeyId(accessKeyId: string)
      modifies this
      ensures GetAccessKeyId() == accessKeyId
      ensures endpoint == old(endpoint) && accessKeySecret == old(accessKeySecret)
      ensures securityToken == old(securityToken) && namespace == old(namespace)
    {
      this.accessKeyId := accessKeyId;
    }

    function GetAccessKeyId(): string
      reads this
    {
      accessKeyId
    }

    method SetAccessKeySecret(accessKeySecret: string)
      modifies this
      ensures GetAccessKeySecret() == accessKeySecret
      ensures endpoint == old(endpoint) && accessKeyId == old(accessKeyId)
      ensures securityToken == old(securityToken) && namespace == old(namespace)
    {
      this.accessKeySecret := accessKeySecret;
    }

    function GetAccessKeySecret(): string
      reads this
    {
      accessKeySecret
    }

    method SetSecurityToken(securityToken: string)
      modifies this
      ensures GetSecurityToken() == Some(securityToken)
      ensures endpoint == old(endpoint) && accessKeyId == old(accessKeyId)
      ensures accessKeySecret == old(accessKeySecret) && namespace == old(namespace)
    {
      this.securityToken := Some(securityToken);
    }

    function GetSecurityToken(): Option<string>
      reads this
    {
      securityToken
    }

    method SetNamespace(namespace: string)
      modifies this
      ensures GetNamespace() == Some(namespace)
      ensures endpoint == old(endpoint) && accessKeyId == old(accessKeyId)
      ensures accessKeySecret == old(accessKeySecret) && securityToken == old(securityToken)
    {
      this.namespace := Some(namespace);
    }

    function GetNamespace(): Option<string>
      reads this
    {
      namespace
    }
  }

  /** The configuration of a consumer. */
  class ConsumerOption {
    var group: string
    var topic: string
    var tag: Option<string>

    /** `ConsumerOption::default()`; the default topic is the string `localhost:8081`. */
    constructor Default()
      ensures group == "" && topic == "localhost:8081" && tag == None
    {
      group := "";
      topic := "localhost:8081";
      tag := None;
    }

    method SetGroup(group: string)
      modifies this
      ensures GetGroup() == group
      ensures topic == old(topic) && tag == old(tag)
    {
      this.group := group;
    }

    function GetGroup(): string
      reads this
    {
      group
    }

    method SetTopic(topic: string)
      modifies this
      ensures GetTopic() == topic
      ensures group == old(group) && tag == old(tag)
    {
      this.topic := topic;
    }

    function GetTopic(): string
      reads this
    {
      topic
    }

    method SetTag(tag: string)
      modifies this
      ensures GetTag() == Some(tag)
      ensures group == old(group) && topic == old(topic)
    {
      this.tag := Some(tag);
    }

    function GetTag(): Option<string>
      reads this
    {
      tag
    }
  }

  /** The configuration of a producer; its group is kept but never sent. */
  class ProducerOption {
    var group: Option<string>
    var topic: string

    /** `ProducerOption::default()`. */
    constructor Default()
      ensures group == None && topic == ""
    {
      group := None;
      topic := "";
    }

    method SetGroup(group: string)
      modifies this
      ensures GetGroup() == Some(group)
      ensures topic == old(topic)
    {
      this.group := Some(group);
    }

    function GetGroup(): Option<string>
      reads this
    {
      group
    }

    method SetTopic(topic: string)
      modifies this
      ensures GetTopic() == topic
      ensures group == old(group)
    {
      this.topic := topic;
    }

    function GetTopic(): string
      reads this
    {
      topic
    }
  }

  /**
   * What the setters promise to a caller that chains them: the last value
   * set wins, fields set earlier survive later setters of other fields, and
   * an optional field once set is never `None` again.
   */
  method ConfigureClient(endpoint: string, firstId: string, id: string, secret: string, ns: string)
    returns (option: ClientOption)
    ensures fresh(option)
    ensures option.GetEndpoint() == endpoint
    ensures option.GetAccessKeyId() == id
    ensures option.GetAccessKeySecret() == secret
    ensures option.GetNamespace() == Some(ns)
    ensures option.GetSecurityToken() == None
  {
    option := new ClientOption.Default();
    option.SetEndpoint(endpoint);
    option.SetAccessKeyId(firstId);
    option.SetNamespace(ns);
    option.SetAccessKeyId(id);
    option.SetAccessKeySecret(secret);
    option.SetNamespace(ns);
  }
}
