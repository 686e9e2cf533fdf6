/**
 * `get_canonicalized_mq_headers`: the signer's view of the request headers.
 * Every header whose name starts with `x-mq-` becomes one line
 * `name:value\n`, in the header map's iteration order (no sorting); a value
 * that `to_str` rejects is written as the empty string.
 */
module Util {
  import opened Wrappers
  import opened Http

  const MqPrefix: string := "x-mq-"

  /** `name.starts_with("x-mq-")`. */
  predicate IsMqHeader(name: string) {
    |name| >= |MqPrefix| && name[..|MqPrefix|] == MqPrefix
  }

  /** The line one header contributes: `name:value\n`. */
  function MqLine(h: Header): string {
    h.name + ":" + ToStr(h.value).GetOr("") + "\n"
  }

  /** The line a header contributes if it is selected, and nothing otherwise. */
  function Contribution(h: Header): (r: string)
    ensures r == "" <==> !IsMqHeader(h.name)
  {
    if IsMqHeader(h.name) then MqLine(h) else ""
  }

  predicate NoMqHeader(headers: HeaderMap) {
    forall i :: 0 <= i < |headers| ==> !IsMqHeader(headers[i].name)
  }

  /** The canonicalized MQ header block: empty exactly when no `x-mq-` header exists, else ending in a newline. */
  function CanonicalizedMqHeaders(headers: HeaderMap): (r: string)
    ensures r == "" <==> NoMqHeader(headers)
    ensures r != "" ==> r[|r| - 1] == '\n'
  {
    if headers == [] then ""
    else
      var rest := CanonicalizedMqHeaders(headers[1..]);
      assert NoMqHeader(headers) <==> !IsMqHeader(headers[0].name) && NoMqHeader(headers[1..]) by {
        assert forall i :: 1 <= i < |headers| ==> headers[i] == headers[1..][i - 1];
      }
      Contribution(headers[0]) + rest
  }

  /** The block of a concatenated header list is the concatenation of the blocks. */
  lemma {:induction false} CanonicalConcat(a: HeaderMap, b: HeaderMap)
    ensures CanonicalizedMqHeaders(a + b) == CanonicalizedMqHeaders(a) + CanonicalizedMqHeaders(b)
  {
    if a == [] {
      assert a + b == b;
    } else {
      assert (a + b)[1..] == a[1..] + b;
      CanonicalConcat(a[1..], b);
    }
  }

  /** A single header contributes exactly its line when selected, and nothing otherwise. */
  lemma CanonicalSingle(h: Header)
    ensures CanonicalizedMqHeaders([h]) == if IsMqHeader(h.name) then h.name + ":" + ToStr(h.value).GetOr("") + "\n" else ""
  {
    assert [h][1..] == [];
  }

  /** A value `to_str` rejects yields `name:` and an empty value, not an error. */
  lemma CanonicalUnreadableValue(h: Header)
    requires IsMqHeader(h.name) && !IsVisibleAscii(h.value)
    ensures CanonicalizedMqHeaders([h]) == h.name + ":\n"
  {
    CanonicalSingle(h);
  }

  /**
   * Lines appear in list order: a selected header's line sits between the
   * block of what precedes it and the block of what follows it.
   */
  lemma CanonicalOrder(a: HeaderMap, h: Header, b: HeaderMap)
    ensures CanonicalizedMqHeaders(a + [h] + b)
         == CanonicalizedMqHeaders(a) + Contribution(h) + CanonicalizedMqHeaders(b)
  {
    CanonicalConcat(a + [h], b);
    CanonicalConcat(a, [h]);
    CanonicalSingle(h);
  }

  /** Headers outside the `x-mq-` family can be added anywhere without changing the block. */
  lemma CanonicalIgnoresOthers(a: HeaderMap, others: HeaderMap, b: HeaderMap)
    requires NoMqHeader(others)
    ensures CanonicalizedMqHeaders(a + others + b) == CanonicalizedMqHeaders(a + b)
  {
    CanonicalConcat(a + others, b);
    CanonicalConcat(a, others);
    CanonicalConcat(a, b);
  }

  /** `date`, `content-type`, `content-md5`, `authorization` and the other fixed names are never selected. */
  lemma FixedNamesNotMq()
    ensures !IsMqHeader("date") && !IsMqHeader("content-type") && !IsMqHeader("content-md5")
    ensures !IsMqHeader("authorization") && !IsMqHeader("content-length")
    ensures !IsMqHeader("user-agent") && !IsMqHeader("security-token")
    ensures IsMqHeader("x-mq-version")
  {
    assert "date"[0] != "x-mq-"[0];
    assert "content-type"[0] != "x-mq-"[0];
    assert "content-md5"[0] != "x-mq-"[0];
    assert "authorization"[0] != "x-mq-"[0];
    assert "content-length"[0] != "x-mq-"[0];
    assert "user-agent"[0] != "x-mq-"[0];
    assert "security-token"[0] != "x-mq-"[0];
    assert "x-mq-version"[..5] == "x-mq-";
  }

  /**
   * The block follows insertion order, not name order: two `x-mq-` headers
   * inserted in the two possible orders give two different blocks.
   */
  lemma CanonicalDependsOnOrder()
    ensures CanonicalizedMqHeaders([Header("x-mq-a", "1"), Header("x-mq-b", "2")])
         != CanonicalizedMqHeaders([Header("x-mq-b", "2"), Header("x-mq-a", "1")])
  {
    var a, b := Header("x-mq-a", "1"), Header("x-mq-b", "2");
    assert "x-mq-a"[..5] == MqPrefix && "x-mq-b"[..5] == MqPrefix;
    assert ToStr("1") == Some("1") && ToStr("2") == Some("2");
    CanonicalOrder([], a, [b]);
    CanonicalOrder([], b, [a]);
    CanonicalSingle(a);
    CanonicalSingle(b);
    assert [] + [a] + [b] == [a, b] && [] + [b] + [a] == [b, a];
    assert CanonicalizedMqHeaders([a, b])[5] == 'a';
    assert CanonicalizedMqHeaders([b, a])[5] == 'b';
  }
}
