/**
 * The foreign collaborators of the client, gathered in one value so that
 * every operation receives them as an argument: the digests (MD5 of
 * RFC 1321, HMAC-SHA1 of RFC 2104), the base64 encoder (section 4 of
 * RFC 4648, standard alphabet with padding), the query-string encoder, the
 * XML writer and readers, and the HTTP transport. Nothing is assumed about
 * them beyond their types, except that base64 text uses the base64 alphabet.
 */
module Primitives {
  import opened Wrappers
  import opened Text
  import opened Http
  import opened Message

  /** An MD5 digest: 16 bytes. */
  type Md5Digest = d: seq<byte> | |d| == 16
    witness [0, 0, 0, 0, 0, 0, 0, 0, 0, 0, 0, 0, 0, 0, 0, 0]

  datatype Env = Env(
    /** `md5::compute`. */
    md5: seq<byte> -> Md5Digest,
    /** Whether `Hmac::<Sha1>::new_from_slice` accepts a key. */
    hmacAcceptsKey: seq<byte> -> bool,
    /** The finalized HMAC-SHA1 of a message under a key. */
    hmacSha1: (seq<byte>, seq<byte>) -> seq<byte>,
    /** `general_purpose::STANDARD.encode`. */
    base64: seq<byte> -> string,
    /** `serde_urlencoded::to_string` of a parameter map (its order is the map's iteration order). */
    urlEncode: map<string, string> -> string,
    /** `quick_xml::se::to_string`; `None` is a serialization error. */
    writeXml: XmlNode -> Option<string>,
    /** `quick_xml::de::from_str` for a consume reply; `None` when the text does not decode. */
    readConsumerResponse: string -> Option<RawConsumerResponse>,
    /** `quick_xml::de::from_str` for a publish reply; `None` when the text does not decode. */
    readPublishResponse: string -> Option<PublishMessageResponse>,
    /** `RequestBuilder::send().await`; `None` is a transport failure. */
    send: HttpRequest -> Option<Response>)

  predicate IsBase64Char(c: char) {
    'A' <= c <= 'Z' || 'a' <= c <= 'z' || '0' <= c <= '9' || c == '+' || c == '/' || c == '='
  }

  predicate IsBase64Text(s: string) {
    forall i :: 0 <= i < |s| ==> IsBase64Char(s[i])
  }

  /** The one fact relied on: base64 output is made of the base64 alphabet and padding. */
  ghost predicate ValidEnv(env: Env) {
    forall b :: IsBase64Text(env.base64(b))
  }

  /** Base64 text is acceptable header text and reads back unchanged through `to_str`. */
  lemma Base64IsHeaderText(s: string)
    requires IsBase64Text(s)
    ensures IsHeaderValueText(s) && IsVisibleAscii(s)
  {
  }
}
