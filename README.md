# MQ HTTP client core in Dafny

This project models the request-building and signing core of a Rust SDK for
an HTTP/XML message queue. Network I/O is not modelled. The model covers:

- **`Util`** (`src/util.rs`). The canonicalized MQ header block: every header
  whose name starts with `x-mq-` becomes one line `name:value\n`. Lines follow
  the header map's iteration order. `http::HeaderMap` documents that order
  as arbitrary; the model relies on what its implementation does when
  nothing is removed, which is insertion order.
- **`Client`** (`src/client.rs`).
  - The client record and its getters.
  - Header assembly for one request, step by step: `date`, `x-mq-version`,
    `content-type` and `user-agent`; then `content-length` and `content-md5`
    when there is a body; then the signature; then `authorization` and an
    optional `security-token`.
  - The five-field string-to-sign and its HMAC-SHA1/base64 signature.
  - Dispatch on the method: GET, DELETE and POST are sent; any other method
    is `UnsupportedMethod`.
  - `get`, `post` and `delete`.
- **`Message`** (`src/model/message.rs`).
  - The wire records.
  - The property codec: `serialize_properties` writes a map as `k:v|k:v` in
    the map's iteration order, and `parse_properties` reads text back by
    repeatedly matching `([^:|]+):([^:|]*)`, a later key overwriting an
    earlier one.
  - The rule that `<Properties>` is skipped when the map is empty.
  - The request documents as element trees.
- **`Consumer`** (`src/consumer.rs`). `consumer_message`: query parameters,
  a signed GET, and decoding of the reply, where a body that does not decode
  panics. `ack`: the `<ReceiptHandles>` document sent with a signed DELETE.
- **`Producer`** (`src/producer.rs`). `publish_message`: the `<Message>`
  document sent with a signed POST, and decoding of the reply.
- **`Conf`** (`src/conf.rs`). The three option classes as Dafny classes,
  with their defaults, setters and getters.

Support modules:

- `Wrappers`: `Option` and `Result`.
- `Text`: UTF-8 byte length, decimal rendering and lowercase hex.
- `Http`: the vocabulary of the `http`/`reqwest` crates. A `HeaderMap` is a
  sequence of headers with distinct names in insertion order; `insert`
  replaces a value in place or appends. A `Method` never holds a standard
  name as an extension token, because parsing normalises those.
- `Primitives`: one `Env` value that holds every foreign collaborator as a
  function-typed field. These are MD5, HMAC-SHA1, base64, query-string
  encoding, the XML writer and readers, and the transport.

The date header is an argument. `SignedHeadersFailure` and `ExchangeOutcome`
prove that only a refused HMAC key or an unsupported method stops a request
before it is sent. `SignedHeaderValues` proves that the authorization value
carries the signature over the final header list, so adding `authorization`
and `security-token` after signing changes nothing that was signed.

Signing documents for this service describe the `x-mq-` lines as sorted by
name. `src/util.rs:5-8` emits them in header-map order, and the model follows
the code. `Util.CanonicalDependsOnOrder` shows the two orders differ when there
are two such headers. `Client.SignedHeadersCanonicalBlock` shows that every
request this client builds carries only `x-mq-version`, so the difference
never shows up in its signatures.

## Model

| member | source | states |
|---|---|---|
| `Util.Contribution` | src/util.rs:6-7 | a header contributes the empty string exactly when its name lacks the `x-mq-` prefix |
| `Util.IsMqHeader` | src/util.rs:6 | reference definition of the `starts_with("x-mq-")` filter; its use is proved in `Util.Contribution` and `Util.FixedNamesNotMq` |
| `Util.MqLine` | src/util.rs:7 | reference definition of the `name:value\n` line with `unwrap_or("")`; its properties are proved in `Util.CanonicalSingle` and `Util.CanonicalUnreadableValue` |
| `Util.CanonicalizedMqHeaders` | src/util.rs:4-9 | the block is empty exactly when no header has the `x-mq-` prefix, and otherwise ends with a newline, so the resource follows it directly |
| `Util.CanonicalConcat` | src/util.rs:4-9 | the block of a concatenated header list is the concatenation of the two blocks (the map is walked in order) |
| `Util.CanonicalSingle` | src/util.rs:6-7 | one header gives `name:value\n` if selected and nothing otherwise |
| `Util.CanonicalUnreadableValue` | src/util.rs:7 | a selected header whose value `to_str` rejects gives `name:` with an empty value, not an error |
| `Util.CanonicalOrder` | src/util.rs:5-8 | a selected header's line sits between the blocks of the headers before it and after it |
| `Util.CanonicalIgnoresOthers` | src/util.rs:6 | headers outside the `x-mq-` family can be inserted anywhere without changing the block |
| `Util.FixedNamesNotMq` | src/util.rs:6 | of the names the client uses, only `x-mq-version` is selected |
| `Util.CanonicalDependsOnOrder` | src/util.rs:5-8 | two `x-mq-` headers inserted in opposite orders give different blocks (no sorting) |
| `Http.ToStr` | src/client.rs:108-110 | `to_str` succeeds exactly on tab/visible-ASCII text and returns it unchanged |
| `Http.MethodText` | src/client.rs:111 | reference definition of the method's `Display` text; its properties are proved in `Client.DispatchedByMethodText` and `Client.SignedRequestStringToSign` |
| `Http.HeaderValueTextConcat` | src/client.rs:91 | concatenating two acceptable header texts gives acceptable header text |
| `Http.Lookup` | src/client.rs:108-110 | `get` finds a value exactly when the name is present, and the value found is stored under that name |
| `Http.LookupAt` | src/client.rs:108-110 | with distinct names, `get` returns the value stored at that name's entry |
| `Http.LookupAppend` | src/client.rs:108-110 | a lookup in `a + b` uses `a` when `a` holds the name and `b` otherwise |
| `Http.LookupThree` | src/client.rs:108-110 | the same for three concatenated lists |
| `Http.AppendDistinct` | src/client.rs:72-94 | lists with distinct names and no name in common concatenate to a list with distinct names |
| `Http.Insert` | src/client.rs:72-94 | `insert` keeps names distinct, makes the new value the one found, leaves every other name's lookup unchanged, replaces a present name's entry in place, and appends a name that was absent |
| `Http.LookupReplace` | src/client.rs:72-94 | replacing one entry's value in place leaves lookups of other names unchanged |
| `Text.Utf8Char` | src/client.rs:79 | a character takes 1 to 4 UTF-8 bytes, one byte exactly when it is ASCII, and that byte is its code |
| `Text.Utf8` | src/client.rs:79 | the UTF-8 byte length `len()` reports is never below the character count |
| `Text.Utf8Concat` | src/client.rs:79-80 | UTF-8 encoding distributes over concatenation |
| `Text.Utf8OfAscii` | src/client.rs:82 | ASCII text encodes to one byte per character, each the character's code |
| `Text.Decimal` | src/client.rs:79 | `to_string` of a number is non-empty, all digits, and without a leading zero |
| `Text.DecimalRoundTrip` | src/client.rs:79 | the decimal text reads back as the number it was made from |
| `Text.DecimalInjective` | src/consumer.rs:33-34 | different numbers render differently (used to show the query identifies the counts) |
| `Text.DecimalLength` | src/consumer.rs:33-34 | a number below 10^k renders in at most k digits |
| `Text.HexLower` | src/client.rs:81 | `format!("{:?}", digest)` has two lowercase hex characters per byte |
| `Text.HexRoundTrip` | src/client.rs:81 | the hex text decodes back to the digest bytes |
| `Text.HexDigitInverse` | src/client.rs:81 | each hex digit reads back as its value |
| `Text.HexIsAscii` | src/client.rs:81-82 | the hex text is ASCII, so `as_bytes` gives exactly twice the digest length |
| `Primitives.Base64IsHeaderText` | src/client.rs:82-85 | base64 text is acceptable header text and reads back unchanged through `to_str` |
| `Message.JoinPairs` | src/model/message.rs:78-84 | the joined text is empty exactly when there are no entries |
| `Message.JoinPairsSnoc` | src/model/message.rs:80-83 | each later entry is appended after a bar separator |
| `Message.JoinPairsNoOuterBar` | src/model/message.rs:80-83 | with well-formed entries the text neither starts nor ends with a bar |
| `Message.Entries` | src/model/message.rs:79 | the entries list has one `(key, value)` per key of the order, taken from the map |
| `Message.SerializeProperties` | src/model/message.rs:74-86 | the loop walks every key exactly once in some order and produces bar-joined `key:value` text of that order; the text is empty exactly when the map is |
| `Message.RunLength` | src/model/message.rs:93 | the length of the leading run of characters other than colon and bar: no delimiter before it, a delimiter right after it |
| `Message.RunLengthPrefix` | src/model/message.rs:93 | a delimiter-free text followed by a delimiter or the end is a maximal run |
| `Message.CaptureHere` | src/model/message.rs:93-97 | a match at the start spans exactly `key:value`, with a non-empty key, delimiter-free parts, and a greedy value |
| `Message.NextCapture` | src/model/message.rs:95 | a capture found lies within the text and has a well-formed key and value |
| `Message.NextCaptureIsLeftmost` | src/model/message.rs:93-95 | the scanner finds no capture exactly when the regex matches nowhere; otherwise it finds the leftmost match, spanning `key:value` with a greedy value |
| `Message.NoColonNoCapture` | src/model/message.rs:93 | text without `:` has no match |
| `Message.ParseProperties` | src/model/message.rs:88-101 | the loop computes the parse of the text; the map has well-formed keys and values; text without `:` gives the empty map |
| `Message.ParseFrom` | src/model/message.rs:95-99 | reference definition of inserting the captures left to right; its properties are proved in `Message.ParseEntry`, `Message.ParseJoined` and `Message.ParseFromWellFormed` |
| `Message.ParsedProperties` | src/model/message.rs:88-101 | reference definition of `parse_properties`; its properties are proved in `Message.ParseProperties`, `Message.PropertiesRoundTrip` and `Message.DuplicateKeyOverwrites` |
| `Message.NextCaptureSkips` | src/model/message.rs:95 | a leading delimiter is skipped, and every later match moves one place |
| `Message.ParseSkipsBar` | src/model/message.rs:95-99 | a leading bar does not change the parse |
| `Message.CaptureOfEntry` | src/model/message.rs:93-97 | a well-formed `key:value` followed by a delimiter or the end is matched exactly |
| `Message.ParseEntry` | src/model/message.rs:95-99 | parsing such an entry inserts it into the map and continues after it |
| `Message.ParseJoined` | src/model/message.rs:74-101 | parsing joined well-formed entries inserts them in order, later keys overwriting earlier ones |
| `Message.InsertAllEntries` | src/model/message.rs:98 | inserting a map's entries in any order rebuilds the map's entries for those keys |
| `Message.PropertiesRoundTrip` | src/model/message.rs:74-101 | for keys and values without colon or bar (keys non-empty), parsing the serialized text gives back the map, whatever iteration order the serializer used |
| `Message.ParseFromWellFormed` | src/model/message.rs:93-99 | parsing only ever inserts well-formed keys and values |
| `Message.ParseWithoutColon` | src/model/message.rs:93-100 | text with no `:` inserts nothing |
| `Message.DuplicateKeyOverwrites` | src/model/message.rs:95-99 | for every key `k` and values `v1`, `v2`, the text `k:v1` bar `k:v2` parses to `k` mapped to `v2`: a later duplicate key overwrites the earlier one |
| `Message.ParseSkipsDelimiter` | src/model/message.rs:95-99 | a leading `:` or bar character never starts a capture, so parsing skips it without changing the result |
| `Message.DecodeMessage` | src/model/message.rs:12-25 | decoding passes every text field through unchanged (id, body digest, body, receipt handle, the three times, consume count, tag) and sets the properties to the parse of the `<Properties>` text, which is well-formed |
| `Message.DecodeConsumerResponse` | src/model/message.rs:4-34 | the variant is kept, an error document is passed through, and the messages keep their number and order, each being the decoding of its raw record, so every receipt handle is kept and every property map is the well-formed parse of its text |
| `Message.ChildTextCons` | src/model/message.rs:54-62 | reading a child's text finds the first matching element |
| `Message.PublishRequestXml` | src/model/message.rs:54-62 | reference definition of the publish document tree; its properties are proved in `Message.PublishRequestXmlFields` |
| `Message.AckRequestXml` | src/model/message.rs:46-51 | reference definition of the ack document tree; its properties are proved in `Message.AckRequestXmlHandles` |
| `Message.PublishRequestXmlFields` | src/model/message.rs:54-62 | the publish document is `<Message>` with the body and the tag (if any), and `<Properties>` exactly when the map is not empty (`skip_serializing_if`) |
| `Message.AckRequestXmlHandles` | src/model/message.rs:46-51 | the ack document is `<ReceiptHandles>` and lists every handle once, in order |
| `Conf.ClientOption.Default` | src/conf.rs:11-21 | defaults: endpoint `localhost:8081`, empty key id and secret, no token, no namespace |
| `Conf.ClientOption.SetEndpoint` | src/conf.rs:25-31 | afterwards `get_endpoint` returns the new value; no other field changes |
| `Conf.ClientOption.SetAccessKeyId` | src/conf.rs:33-39 | afterwards `get_access_key_id` returns the new value; no other field changes |
| `Conf.ClientOption.SetAccessKeySecret` | src/conf.rs:41-47 | afterwards `get_access_key_secret` returns the new value; no other field changes |
| `Conf.ClientOption.SetSecurityToken` | src/conf.rs:49-58 | afterwards `get_security_token` returns `Some` of the new value; no other field changes |
| `Conf.ClientOption.SetNamespace` | src/conf.rs:60-69 | afterwards `get_namespace` returns `Some` of the new value; no other field changes |
| `Conf.ConsumerOption.Default` | src/conf.rs:82-90 | defaults: empty group, topic `localhost:8081`, no tag |
| `Conf.ConsumerOption.SetGroup` | src/conf.rs:94-100 | afterwards `get_group` returns the new value; no other field changes |
| `Conf.ConsumerOption.SetTopic` | src/conf.rs:102-108 | afterwards `get_topic` returns the new value; no other field changes |
| `Conf.ConsumerOption.SetTag` | src/conf.rs:110-119 | afterwards `get_tag` returns `Some` of the new value; no other field changes |
| `Conf.ProducerOption.Default` | src/conf.rs:130-137 | defaults: no group, empty topic |
| `Conf.ProducerOption.SetGroup` | src/conf.rs:141-150 | afterwards `get_group` returns `Some` of the new value; the topic is unchanged |
| `Conf.ProducerOption.SetTopic` | src/conf.rs:152-158 | afterwards `get_topic` returns the new value; the group is unchanged |
| `Conf.ConfigureClient` | examples/producer.rs:10-14 | a chain of setters leaves the last value of each field and a configured namespace, with the token still unset |
| `Client.Client.New` | src/client.rs:28-50 | the client takes over every option field, and its getters agree with the option getters |
| `Client.Sign` | src/client.rs:105-121 | the signature fails, with `Signature`, exactly when HMAC refuses the secret; otherwise it is base64 text |
| `Client.HeaderField` | src/client.rs:108-110 | reference definition of `get(..).unwrap_or(&binding).to_str().unwrap_or("")`; its properties are proved in `Client.LookupAppendUnsigned` and `Client.SignedRequestStringToSign` |
| `Client.StringToSign` | src/client.rs:105-111 | reference definition of the string-to-sign; its properties are proved in `Client.SignIgnoresLaterHeaders` and `Client.SignedRequestStringToSign` |
| `Client.SignIgnoresLaterHeaders` | src/client.rs:88-94 | headers the string-to-sign does not read (no `x-mq-`, `content-md5`, `content-type` or `date`) leave the string-to-sign and the signature unchanged |
| `Client.LookupAppendUnsigned` | src/client.rs:108-110 | a field is unaffected by appended headers that lack that name |
| `Client.ContentMd5Input` | src/client.rs:80-82 | base64 encodes 32 ASCII bytes of lowercase hex that decode to the MD5 digest of the body's bytes |
| `Client.ContentLength` | src/client.rs:79 | reference definition of `body.len().to_string()`; its properties are proved in `Client.SignedHeaderValues` (it reads back as the UTF-8 byte count) |
| `Client.ContentMd5` | src/client.rs:80-82 | reference definition of the `Content-MD5` value; its properties are proved in `Client.ContentMd5Input` |
| `Client.UnsignedHeaders` | src/client.rs:72-86 | reference definition of the headers in place at signing; its properties are proved in `Client.UnsignedHeadersFacts` and `Client.InsertUnsignedHeaders` |
| `Client.AuthorizationValue` | src/client.rs:91 | reference definition of `MQ id:signature`; its properties are proved in `Client.SignedHeaderValues` and `Client.InsertLateHeaders` |
| `Client.SignedHeaders` | src/client.rs:64-94 | reference definition of the complete header list or the signing error; its properties are proved in `Client.SignedHeadersFailure`, `Client.SignedHeadersShape` and `Client.SignedHeaderValues` |
| `Client.SignedHeadersFailure` | src/client.rs:113-120 | header assembly fails exactly when the key is refused, and then with `Signature` |
| `Client.FixedHeadersFacts` | src/client.rs:72-75 | the four fixed headers have distinct names and their exact values, and include none of the optional names |
| `Client.BodyHeadersFacts` | src/client.rs:78-86 | `content-length` and `content-md5` are present exactly when there is a body, with the body's length and digest, and no other name |
| `Client.LateHeadersFacts` | src/client.rs:91-94 | the late headers are `authorization`, plus `security-token` exactly when configured, and nothing the signer reads |
| `Client.UnsignedHeadersFacts` | src/client.rs:72-86 | before signing, names are distinct and neither `authorization` nor `security-token` is present |
| `Client.SignedHeadersShape` | src/client.rs:72-94 | a signed list is the fixed headers, the body headers, then the late headers, signed over the first two |
| `Client.AssembledDistinct` | src/client.rs:72-94 | the assembled list has distinct names |
| `Client.AssembledHeaderValues` | src/client.rs:72-94 | every lookup in an assembled list gives the value the request inserted, or nothing for an absent optional header |
| `Client.SignedHeaderValues` | src/client.rs:72-94 | in a signed request: the four fixed values; length (reading back as the UTF-8 byte count) and digest exactly when there is a body; `MQ id:signature` with the signature over the final list; the token exactly when configured |
| `Client.FixedHeadersCanonicalBlock` | src/client.rs:72-75 | the block of the fixed headers is `x-mq-version:2015-06-06\n` |
| `Client.SignedHeadersCanonicalBlock` | src/client.rs:106 | every request's block, before and after signing, is `x-mq-version:2015-06-06\n` |
| `Client.AssembledCanonicalBlock` | src/client.rs:106 | the same for an assembled list with any signature |
| `Client.SignedRequestStringToSign` | src/client.rs:105-111 | the string-to-sign is method, digest or empty, content type, readable date, each followed by a newline, then `x-mq-version:2015-06-06\n` and the resource with no separator |
| `Client.AssembledStringToSign` | src/client.rs:105-111 | the same for an assembled list with any signature |
| `Client.MakeRequest` | src/client.rs:123-145 | `UnsupportedMethod` exactly for methods other than GET, DELETE and POST; those three are sent with the URL, headers and body given |
| `Client.Send` | src/client.rs:137-144 | reference definition of `send().await?`; its properties are proved in `Client.MakeRequest` and `Client.ExchangeOutcome` |
| `Client.Exchange` | src/client.rs:64-103 | reference definition of a whole request; its properties are proved in `Client.ExchangeOutcome`, and `Client.Request` is proved equal to it |
| `Client.DispatchedByMethodText` | src/client.rs:111-134 | the method line of the string-to-sign is `GET`, `DELETE` or `POST` exactly when the method is dispatched |
| `Client.ExchangeOutcome` | src/client.rs:64-103 | `Signature` exactly when the key is refused; `UnsupportedMethod` exactly when the key is accepted and the method is not dispatched; otherwise the signed request goes to `endpoint + resource` with the body unchanged |
| `Client.ConstantsAreVisible` | src/client.rs:23-24 | the version and content-type constants read back unchanged through `to_str` |
| `Client.ConstantsAreHeaderText` | src/client.rs:23-25 | the constant header values are acceptable header text |
| `Client.DigitsAreHeaderText` | src/client.rs:84 | a decimal length is acceptable header text |
| `Client.InsertFixedHeaders` | src/client.rs:72-75 | inserting the four fixed headers one by one yields exactly the fixed list |
| `Client.InsertDateAndVersion` | src/client.rs:72-73 | inserting `Date` and then `x-mq-version` into an empty map yields the first two fixed headers, in that order |
| `Client.InsertTypeAndAgent` | src/client.rs:74-75 | inserting `Content-Type` and then `User-Agent` after them completes the fixed list |
| `Client.InsertUnsignedHeaders` | src/client.rs:67-86 | the insertions before signing yield exactly the unsigned list |
| `Client.InsertBodyHeaders` | src/client.rs:77-86 | inserting length then digest appends exactly the two body headers |
| `Client.InsertLateHeaders` | src/client.rs:91-94 | inserting authorization then the optional token appends exactly the late headers |
| `Client.Request` | src/client.rs:64-103 | the step-by-step request yields exactly the specified exchange |
| `Client.Get` | src/client.rs:52-54 | a signed GET with no body, which is never `UnsupportedMethod` |
| `Client.Post` | src/client.rs:56-58 | a signed POST with the body, which is never `UnsupportedMethod` |
| `Client.Delete` | src/client.rs:60-62 | a signed DELETE with the body, which is never `UnsupportedMethod` |
| `Consumer.Consumer.New` | src/consumer.rs:21-30 | the consumer keeps the option values and the client built from the client options |
| `Consumer.ConsumeParams` | src/consumer.rs:33-47 | `consumer`, `numOfMessages` and `waitSeconds` always, each count as its canonical `to_string` text, which reads back as the number; `tag` exactly when set; `ns` exactly when configured; no other key |
| `Consumer.ConsumeParamsDetermineCounts` | src/consumer.rs:33-39 | two calls with the same parameter map had the same counts: the rendered counts identify the numbers |
| `Consumer.ConsumeCountsAreShort` | src/consumer.rs:33-34 | the two `u8` counts render as 1 to 3 digits |
| `Consumer.MessagesResource` | src/consumer.rs:50 | reference definition of `/topics/{topic}/messages?{query}`, shared with `src/producer.rs:48` and `src/consumer.rs:74`; used by `Consumer.ConsumeRequest` and `Consumer.AckOutcomes` |
| `Consumer.ConsumeResult` | src/consumer.rs:32-57 | reference definition of what `consumer_message` yields; its properties are proved in `Consumer.ConsumeOutcomes` and `Consumer.ConsumeRequest`, and `Consumer.ConsumeMessage` is proved equal to it |
| `Consumer.ConsumeMessage` | src/consumer.rs:32-57 | the insert-by-insert parameter map, the GET and the decoding yield exactly the specified outcome |
| `Consumer.ConsumeOutcomes` | src/consumer.rs:52-56 | `Signature` exactly when the key is refused; never `Xml` or `UnsupportedMethod`; a panic exactly when a reply body arrives and does not decode; every delivered message has a well-formed property map |
| `Consumer.ConsumeRequest` | src/consumer.rs:50-52 | with an accepted key, the request sent is a signed GET of the messages resource with no body and no length or digest header |
| `Consumer.AckParams` | src/consumer.rs:60-64 | `consumer` always, `ns` exactly when configured, no other key |
| `Consumer.Ack` | src/consumer.rs:59-77 | the parameters, the document and the DELETE yield exactly the specified result |
| `Consumer.AckResult` | src/consumer.rs:59-77 | reference definition of what `ack` yields; its properties are proved in `Consumer.AckOutcomes`, and `Consumer.Ack` is proved equal to it |
| `Consumer.AckOutcomes` | src/consumer.rs:59-77 | `Xml` exactly when the document cannot be written; `Signature` exactly when it was written and the key is refused; never `UnsupportedMethod`; otherwise a DELETE whose body is the document, which lists every receipt handle in order |
| `Producer.Producer.New` | src/producer.rs:19-28 | the producer keeps the option values and the client built from the client options |
| `Producer.PublishParams` | src/producer.rs:42-45 | `ns` exactly when configured, no other key |
| `Producer.PublishRequest` | src/producer.rs:36-40 | the request carries the body, the tag always as `Some`, and the properties |
| `Producer.PublishMessage` | src/producer.rs:30-54 | serializing the properties only when the map is not empty, then writing, POSTing and decoding, yields exactly the specified result for the iteration order the serializer followed |
| `Producer.PublishResult` | src/producer.rs:30-54 | reference definition of what `publish_message` yields; its properties are proved in `Producer.PublishOutcomes` and `Producer.PublishIgnoresGroup`, and `Producer.PublishMessage` is proved equal to it |
| `Producer.PublishOutcomes` | src/producer.rs:49-53 | `Xml` exactly when the document cannot be written or the reply does not decode; `Signature` exactly when the document was written and the key is refused; never `UnsupportedMethod`; otherwise a POST of the document |
| `Producer.PublishDocument` | src/producer.rs:36-49 | the document holds body and tag, and `<Properties>` exactly when the map is not empty; its text parses back to the map when keys and values avoid colon and bar |
| `Producer.PublishIgnoresGroup` | src/producer.rs:30-54 | the producer's group never affects a publish |

## Left out

- Network I/O and async. The transport, `send().await`, `response.text().await` and `reqwest::Client::new()` are the `Env.send` field and the `Response.text` option.
- Cryptography and encodings. MD5, HMAC-SHA1 and base64 are `Env` fields with only their types known (a digest has 16 bytes). `ValidEnv` assumes just one fact: base64 output uses the base64 alphabet.
- The clock. The date is a parameter; the chrono format `%a, %d %b %Y %H:%M:%S GMT` is not modelled.
- Query-string encoding. `serde_urlencoded` is an `Env` field of the parameter map, and no parameter order is stated. Its `unwrap` never fails on a map of strings, and the model treats it as total.
- The quick_xml (de)serialisation is not modelled:
  - documents are element trees, and the writer and readers are `Env` fields;
  - XML escaping is not modelled;
  - so are the choice between the `<Messages>` and `<Error>` roots, the `Messaage` rename and the aliases on the reply records;
  - the `<MessageTag>` element is written with its text, as the publish call always sets a tag.
- Panics of `HeaderValue::from_str(..).unwrap()` and `.parse().unwrap()` on invalid header characters. They become preconditions: the date, the access key id and the security token must be header text (`HeaderSafe`).
- `ClientError` keeps only the variants this core produces: `Signature`, `UnsupportedMethod`, `Xml`, and `Transport` for every `reqwest` failure. `src/error.rs` and `src/lib.rs` are not part of this model.
- `debug!` logging.
- The order of `HeaderMap` iteration: the model takes it to be insertion order, which is what the `http` crate's implementation does when nothing is removed; the crate itself documents the order as arbitrary.
- A header map holding several values under one name: the client never appends, so one value per name is modelled.
- The getters of the option classes and of the client have no contract of their own. The setters' and `Client.Client.New`'s contracts state what they return.
