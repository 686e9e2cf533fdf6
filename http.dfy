/**
 * The vocabulary of the `http`/`reqwest` crates that the client touches:
 * request methods, header values, the header map and a built request.
 * A `HeaderMap` keeps one entry per name in insertion order, and `insert`
 * on a present name replaces the value in place; iteration follows the
 * entries. The client never inserts a name twice, so one value per name
 * is all that is modelled.
 */
module Http {
  import opened Wrappers

  /** The methods `reqwest::Method` names, plus extension tokens. */
  datatype MethodName = GET | POST | PUT | DELETE | HEAD | OPTIONS | CONNECT | PATCH | TRACE
                      | Extension(token: string)

  /** The tokens of the standard methods, which `http::Method` never holds as extensions. */
  predicate IsStandardToken(t: string) {
    t in {"GET", "POST", "PUT", "DELETE", "HEAD", "OPTIONS", "CONNECT", "PATCH", "TRACE"}
  }

  /** `reqwest::Method`: parsing normalises a standard token to its named method. */
  type Method = m: MethodName | m.Extension? ==> !IsStandardToken(m.token) witness GET

  /** The `Display` rendering of a method, as used in the string-to-sign. */
  function MethodText(m: Method): string {
    match m
    case GET => "GET"
    case POST => "POST"
    case PUT => "PUT"
    case DELETE => "DELETE"
    case HEAD => "HEAD"
    case OPTIONS => "OPTIONS"
    case CONNECT => "CONNECT"
    case PATCH => "PATCH"
    case TRACE => "TRACE"
    case Extension(t) => t
  }

  /**
   * What `HeaderValue::from_str` accepts: tab, or any character from space
   * upwards except DEL (every byte of a multi-byte UTF-8 character is 0x80
   * or above, so such characters are accepted too).
   */
  predicate IsHeaderValueText(s: string) {
    forall i :: 0 <= i < |s| ==> s[i] == '\t' || (' ' <= s[i] && s[i] != '\U{7F}')
  }

  /** What `HeaderValue::to_str` accepts: tab or visible ASCII only. */
  predicate IsVisibleAscii(s: string) {
    forall i :: 0 <= i < |s| ==> s[i] == '\t' || (' ' <= s[i] && s[i] < '\U{7F}')
  }

  /** `HeaderValue::to_str`. */
  function ToStr(v: string): (r: Option<string>)
    ensures r.Some? <==> IsVisibleAscii(v)
    ensures r.Some? ==> r.value == v
  {
    if IsVisibleAscii(v) then Some(v) else None
  }

  lemma HeaderValueTextConcat(a: string, b: string)
    requires IsHeaderValueText(a) && IsHeaderValueText(b)
    ensures IsHeaderValueText(a + b)
  {
    forall i | 0 <= i < |a + b|
      ensures (a + b)[i] == '\t' || (' ' <= (a + b)[i] && (a + b)[i] != '\U{7F}')
    {
      if i < |a| { assert (a + b)[i] == a[i]; } else { assert (a + b)[i] == b[i - |a|]; }
    }
  }

  datatype Header = Header(name: string, value: string)

  type HeaderMap = seq<Header>

  predicate DistinctNames(h: HeaderMap) {
    forall i, j :: 0 <= i < j < |h| ==> h[i].name != h[j].name
  }

  predicate HasName(h: HeaderMap, name: string) {
    exists i :: 0 <= i < |h| && h[i].name == name
  }

  /** `HeaderMap::get`: the value stored under `name`, if any. */
  function Lookup(h: HeaderMap, name: string): (r: Option<string>)
    ensures r.Some? <==> HasName(h, name)
    ensures r.Some? ==> exists i :: 0 <= i < |h| && h[i] == Header(name, r.value)
  {
    if h == [] then None
    else if h[0].name == name then Some(h[0].value)
    else
      var r := Lookup(h[1..], name);
      assert forall i :: 1 <= i < |h| ==> h[i] == h[1..][i - 1];
      r
  }

  /** In a map with distinct names, the value found is the one stored at that name's entry. */
  lemma LookupAt(h: HeaderMap, i: nat)
    requires DistinctNames(h) && i < |h|
    ensures Lookup(h, h[i].name) == Some(h[i].value)
  {
    var r := Lookup(h, h[i].name);
    var j :| 0 <= j < |h| && h[j] == Header(h[i].name, r.value);
  }

  lemma {:induction false} LookupAppend(a: HeaderMap, b: HeaderMap, name: string)
    ensures Lookup(a + b, name) == if HasName(a, name) then Lookup(a, name) else Lookup(b, name)
  {
    if a != [] {
      assert (a + b)[1..] == a[1..] + b;
      LookupAppend(a[1..], b, name);
      if a[0].name != name {
        assert HasName(a, name) <==> HasName(a[1..], name) by {
          if HasName(a, name) {
            var i :| 0 <= i < |a| && a[i].name == name;
            assert a[1..][i - 1] == a[i];
          }
          if HasName(a[1..], name) {
            var i :| 0 <= i < |a[1..]| && a[1..][i].name == name;
            assert a[i + 1] == a[1..][i];
          }
        }
      }
    } else {
      assert a + b == b;
    }
  }

  /** A lookup in three concatenated lists finds the first list holding the name. */
  lemma LookupThree(a: HeaderMap, b: HeaderMap, c: HeaderMap, name: string)
    ensures Lookup(a + b + c, name)
         == if HasName(a, name) then Lookup(a, name) else if HasName(b, name) then Lookup(b, name) else Lookup(c, name)
  {
    LookupAppend(a + b, c, name);
    LookupAppend(a, b, name);
  }

  /** Two lists with distinct names and no name in common concatenate to a list with distinct names. */
  lemma AppendDistinct(a: HeaderMap, b: HeaderMap)
    requires DistinctNames(a) && DistinctNames(b)
    requires forall j :: 0 <= j < |b| ==> !HasName(a, b[j].name)
    ensures DistinctNames(a + b)
  {
    forall i, j | 0 <= i < j < |a + b|
      ensures (a + b)[i].name != (a + b)[j].name
    {
      if j < |a| {
        assert (a + b)[i] == a[i] && (a + b)[j] == a[j];
      } else if i >= |a| {
        assert (a + b)[i] == b[i - |a|] && (a + b)[j] == b[j - |a|];
      } else {
        assert (a + b)[i] == a[i] && (a + b)[j] == b[j - |a|];
        assert !HasName(a, b[j - |a|].name);
      }
    }
  }

  /**
   * `HeaderMap::insert` (of a value that `HeaderValue::from_str`/`from_static`
   * accepted, which is why the value must be header text): a present name keeps
   * its place and takes the new value, a new name is appended.
   */
  function Insert(h: HeaderMap, name: string, value: string): (r: HeaderMap)
    requires DistinctNames(h) && IsHeaderValueText(value)
    ensures DistinctNames(r)
    ensures Lookup(r, name) == Some(value)
    ensures forall n :: n != name ==> Lookup(r, n) == Lookup(h, n)
    ensures HasName(h, name) ==> r == h[IndexOf(h, name) := Header(name, value)]
    ensures !HasName(h, name) ==> r == h + [Header(name, value)]
  {
    if HasName(h, name) then
      var i := IndexOf(h, name);
      InsertReplaceFacts(h, i, value);
      h[i := Header(name, value)]
    else
      InsertAppendFacts(h, name, value);
      h + [Header(name, value)]
  }

  /** The position of the first entry named `name`. */
  function IndexOf(h: HeaderMap, name: string): (i: nat)
    requires HasName(h, name)
    ensures i < |h| && h[i].name == name
    decreases |h|
  {
    if h[0].name == name then 0
    else
      assert HasName(h[1..], name) by {
        var j :| 0 <= j < |h| && h[j].name == name;
        assert h[1..][j - 1] == h[j];
      }
      1 + IndexOf(h[1..], name)
  }

  /** Replacing the value at an existing name keeps the names and changes only that lookup. */
  lemma InsertReplaceFacts(h: HeaderMap, i: nat, value: string)
    requires DistinctNames(h) && i < |h|
    ensures var r := h[i := Header(h[i].name, value)];
      && DistinctNames(r)
      && Lookup(r, h[i].name) == Some(value)
      && forall n :: n != h[i].name ==> Lookup(r, n) == Lookup(h, n)
  {
    var r := h[i := Header(h[i].name, value)];
    LookupAt(r, i);
    forall n | n != h[i].name ensures Lookup(r, n) == Lookup(h, n) {
      LookupReplace(h, i, value, n);
    }
  }

  /** Appending a new name keeps the names distinct and changes only that lookup. */
  lemma InsertAppendFacts(h: HeaderMap, name: string, value: string)
    requires DistinctNames(h) && !HasName(h, name)
    ensures var r := h + [Header(name, value)];
      && DistinctNames(r)
      && Lookup(r, name) == Some(value)
      && forall n :: n != name ==> Lookup(r, n) == Lookup(h, n)
  {
    var r := h + [Header(name, value)];
    LookupAppend(h, [Header(name, value)], name);
    forall n | n != name ensures Lookup(r, n) == Lookup(h, n) {
      LookupAppend(h, [Header(name, value)], n);
    }
  }

  /** Inserting the next header of a list with distinct names extends the prefix already inserted. */
  lemma InsertNext(f: HeaderMap, i: nat)
    requires DistinctNames(f) && i < |f| && IsHeaderValueText(f[i].value)
    ensures DistinctNames(f[..i])
    ensures Insert(f[..i], f[i].name, f[i].value) == f[..i + 1]
  {
    var h := f[..i];
    assert DistinctNames(h);
    assert !HasName(h, f[i].name);
    assert h + [Header(f[i].name, f[i].value)] == f[..i + 1];
  }


  lemma {:induction false} LookupReplace(h: HeaderMap, i: nat, value: string, n: string)
    requires i < |h| && n != h[i].name
    ensures Lookup(h[i := Header(h[i].name, value)], n) == Lookup(h, n)
  {
    if i == 0 {
      assert h[i := Header(h[i].name, value)][1..] == h[1..];
    } else {
      assert h[i := Header(h[i].name, value)][1..] == h[1..][i - 1 := Header(h[i].name, value)];
      LookupReplace(h[1..], i - 1, value, n);
    }
  }

  /** What a `RequestBuilder` holds when it is sent: the method (verb), URL, headers and optional body. */
  datatype HttpRequest = HttpRequest(verb: Method, url: string, headers: HeaderMap, body: Option<string>)

  /** A received response: its status and its body text, `None` when reading the body fails. */
  datatype Response = Response(status: nat, text: Option<string>)
}
