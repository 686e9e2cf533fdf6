/**
 * The wire records of the message API and the bespoke property codec.
 * Properties travel as one text node `k1:v1|k2:v2`; they are written by
 * `serialize_properties` in the map's iteration order and read back by
 * repeatedly matching `([^:|]+):([^:|]*)`, where a later key overwrites an
 * earlier one.
 */
module Message {
  import opened Wrappers

  type Properties = map<string, string>

  datatype ConsumerMessage = ConsumerMessage(
    messageId: string,
    messageBodyMd5: Option<string>,
    messageBody: string,
    receiptHandle: string,
    publishTime: string,
    firstConsumeTime: string,
    nextConsumeTime: string,
    consumedTimes: string,
    messageTag: string,
    properties: Properties)

  datatype ConsumerMessages = ConsumerMessages(messages: seq<ConsumerMessage>)

  datatype ErrorMessage = ErrorMessage(code: string, message: string, requestId: string, hostId: string)

  /** A consume reply is either a batch of messages or a service error document. */
  datatype ConsumerResponse = Messages(batch: ConsumerMessages) | Error(failure: ErrorMessage)

  datatype AckMessageRequest = AckMessageRequest(receiptHandle: seq<string>)

  datatype PublishMessageRequest = PublishMessageRequest(
    messageBody: string,
    messageTag: Option<string>,
    properties: Properties)

  datatype PublishMessageResponse = PublishMessageResponse(messageId: string, messageBodyMd5: Option<string>)

  /**
   * A consumed message as the XML reader produces it, before the
   * `deserialize_with = "parse_properties"` hook turns the text of
   * `<Properties>` into a map.
   */
  datatype RawConsumerMessage = RawConsumerMessage(
    messageId: string,
    messageBodyMd5: Option<string>,
    messageBody: string,
    receiptHandle: string,
    publishTime: string,
    firstConsumeTime: string,
    nextConsumeTime: string,
    consumedTimes: string,
    messageTag: string,
    propertiesText: string)

  datatype RawConsumerResponse = RawMessages(raw: seq<RawConsumerMessage>) | RawError(failure: ErrorMessage)

  // ---------------------------------------------------------------------
  // Property text: the delimiters and well-formed keys and values
  // ---------------------------------------------------------------------

  predicate IsDelimiter(c: char) {
    c == ':' || c == '|'
  }

  /** Text matched by `[^:|]*`. */
  predicate IsPropertyText(s: string) {
    forall i :: 0 <= i < |s| ==> !IsDelimiter(s[i])
  }

  /** Text matched by `[^:|]+`. */
  predicate IsPropertyKey(s: string) {
    s != [] && IsPropertyText(s)
  }

  predicate WellFormedProperties(m: Properties) {
    forall k :: k in m ==> IsPropertyKey(k) && IsPropertyText(m[k])
  }

  predicate WellFormedPairs(ps: seq<(string, string)>) {
    forall i :: 0 <= i < |ps| ==> IsPropertyKey(ps[i].0) && IsPropertyText(ps[i].1)
  }

  // ---------------------------------------------------------------------
  // serialize_properties
  // ---------------------------------------------------------------------

  /** The text one entry contributes: `key:value`. */
  function Entry(key: string, value: string): string {
    key + ":" + value
  }

  /** Entries joined by single `|`, with none before the first or after the last. */
  function JoinPairs(ps: seq<(string, string)>): (r: string)
    ensures r == "" <==> ps == []
  {
    if ps == [] then ""
    else if |ps| == 1 then Entry(ps[0].0, ps[0].1)
    else Entry(ps[0].0, ps[0].1) + "|" + JoinPairs(ps[1..])
  }

  lemma {:induction false} JoinPairsSnoc(ps: seq<(string, string)>, p: (string, string))
    requires ps != []
    ensures JoinPairs(ps + [p]) == JoinPairs(ps) + "|" + Entry(p.0, p.1)
  {
    if |ps| == 1 {
      assert (ps + [p])[1..] == [p];
    } else {
      var e0, rest, ep := Entry(ps[0].0, ps[0].1), JoinPairs(ps[1..]), Entry(p.0, p.1);
      assert (ps + [p])[0] == ps[0];
      assert (ps + [p])[1..] == ps[1..] + [p];
      JoinPairsSnoc(ps[1..], p);
      assert JoinPairs(ps + [p]) == e0 + "|" + (rest + "|" + ep);
      assert JoinPairs(ps) == e0 + "|" + rest;
      assert e0 + "|" + (rest + "|" + ep) == e0 + "|" + rest + "|" + ep;
    }
  }

  /** Well-formed entries give text that neither starts nor ends with `|`. */
  lemma {:induction false} JoinPairsNoOuterBar(ps: seq<(string, string)>)
    requires ps != [] && WellFormedPairs(ps)
    ensures var r := JoinPairs(ps); r[0] != '|' && r[|r| - 1] != '|'
  {
    var r := JoinPairs(ps);
    assert r[0] == ps[0].0[0];
    if |ps| > 1 {
      JoinPairsNoOuterBar(ps[1..]);
      var tail := JoinPairs(ps[1..]);
      assert r[|r| - 1] == tail[|tail| - 1];
    } else if ps[0].1 != [] {
      assert r[|r| - 1] == ps[0].1[|ps[0].1| - 1];
    }
  }

  /** The key order `props.iter()` happens to follow: every key exactly once. */
  ghost predicate IsEnumeration(order: seq<string>, m: Properties) {
    && (forall i, j :: 0 <= i < j < |order| ==> order[i] != order[j])
    && (forall k :: k in m <==> k in order)
  }

  /** The entries of `m` in the order `order` names their keys. */
  function Entries(m: Properties, order: seq<string>): (ps: seq<(string, string)>)
    requires forall i :: 0 <= i < |order| ==> order[i] in m
    ensures |ps| == |order|
    ensures forall i :: 0 <= i < |order| ==> ps[i] == (order[i], m[order[i]])
  {
    seq(|order|, i requires 0 <= i < |order| => (order[i], m[order[i]]))
  }

  /**
   * `serialize_properties`: walks the map in its iteration order (an
   * arbitrary one, reported in `order`) and pushes `key:value`, preceded
   * by `|` whenever the text is not empty yet.
   */
  method SerializeProperties(props: Properties) returns (res: string, ghost order: seq<string>)
    ensures IsEnumeration(order, props)
    ensures res == JoinPairs(Entries(props, order))
    ensures res == "" <==> |props| == 0
  {
    res := "";
    order := [];
    var left := props.Keys;
    while left != {}
      invariant left <= props.Keys
      invariant forall k :: k in props <==> k in left || k in order
      invariant forall k :: k in left ==> k !in order
      invariant forall i, j :: 0 <= i < j < |order| ==> order[i] != order[j]
      invariant res == JoinPairs(Entries(props, order))
      decreases |left|
    {
      var key :| key in left;
      ghost var before := order;
      if res != "" {
        res := res + "|";
      }
      res := res + Entry(key, props[key]);
      left := left - {key};
      order := order + [key];
      assert Entries(props, order) == Entries(props, before) + [(key, props[key])];
      if before != [] {
        JoinPairsSnoc(Entries(props, before), (key, props[key]));
      }
    }
    if order == [] {
      assert props.Keys == {};
      assert props == map[];
    } else {
      assert order[0] in props;
    }
  }

  // ---------------------------------------------------------------------
  // parse_properties
  // ---------------------------------------------------------------------

  /** How many leading characters belong to `[^:|]*`. */
  function RunLength(t: string): (n: nat)
    ensures n <= |t|
    ensures forall i :: 0 <= i < n ==> !IsDelimiter(t[i])
    ensures n < |t| ==> IsDelimiter(t[n])
  {
    if t == [] || IsDelimiter(t[0]) then 0 else 1 + RunLength(t[1..])
  }

  /** The run of a delimiter-free prefix stops at the delimiter (or the end) that follows it. */
  lemma {:induction false} RunLengthPrefix(a: string, b: string)
    requires IsPropertyText(a)
    requires b == [] || IsDelimiter(b[0])
    ensures RunLength(a + b) == |a|
  {
    if a == [] {
      assert a + b == b;
    } else {
      assert (a + b)[1..] == a[1..] + b;
      RunLengthPrefix(a[1..], b);
    }
  }

  /**
   * `([^:|]+):` matches at the start of `t`. Since `[^:|]` excludes `:`,
   * the key of any such match runs up to the first delimiter, so the
   * match exists exactly when that delimiter is `:` and the run is not empty.
   */
  predicate MatchesHere(t: string) {
    var n := RunLength(t);
    0 < n < |t| && t[n] == ':'
  }

  /** A match of the pattern can start at offset `p` of `t`. */
  predicate MatchStartsAt(t: string, p: nat) {
    p <= |t| && MatchesHere(t[p..])
  }

  /** One capture: the offset it starts at, group 1 and group 2. */
  datatype Capture = Capture(start: nat, key: string, value: string)

  function CaptureEnd(m: Capture): nat {
    m.start + |m.key| + 1 + |m.value|
  }

  /** The capture at the start of `t`: the key up to `:`, the greedy value up to the next delimiter. */
  function CaptureHere(t: string): (m: Capture)
    requires MatchesHere(t)
    ensures m.start == 0 && CaptureEnd(m) <= |t|
    ensures t[..CaptureEnd(m)] == m.key + ":" + m.value
    ensures IsPropertyKey(m.key) && IsPropertyText(m.value)
    ensures CaptureEnd(m) == |t| || IsDelimiter(t[CaptureEnd(m)])
  {
    var n := RunLength(t);
    var v := RunLength(t[n + 1..]);
    var m := Capture(0, t[..n], t[n + 1..n + 1 + v]);
    assert t[..CaptureEnd(m)] == t[..n] + [':'] + t[n + 1..n + 1 + v];
    assert CaptureEnd(m) < |t| ==> t[CaptureEnd(m)] == t[n + 1..][v];
    m
  }

  /**
   * The leftmost match in `t`, as `captures_iter` finds it: every start
   * offset is tried in order, and the first one where the pattern matches wins.
   */
  function NextCapture(t: string): (r: Option<Capture>)
    ensures r.Some? ==> CaptureEnd(r.value) <= |t|
    ensures r.Some? ==> IsPropertyKey(r.value.key) && IsPropertyText(r.value.value)
    decreases |t|
  {
    if t == [] then None
    else if MatchesHere(t) then Some(CaptureHere(t))
    else
      match NextCapture(t[1..])
      case None => None
      case Some(m) => Some(m.(start := m.start + 1))
  }

  /**
   * What a leftmost-first, greedy scanner reports for `t`: no match only
   * when none starts anywhere; otherwise a match at the first offset where
   * one can start, spelling `key:value` there, with a value that runs up to
   * the next delimiter or the end.
   */
  ghost predicate Leftmost(t: string, r: Option<Capture>) {
    && (r.None? ==> forall p :: 0 <= p <= |t| ==> !MatchStartsAt(t, p))
    && (r.Some? ==>
      && CaptureEnd(r.value) <= |t|
      && MatchStartsAt(t, r.value.start)
      && (forall p :: 0 <= p < r.value.start ==> !MatchStartsAt(t, p))
      && t[r.value.start..CaptureEnd(r.value)] == r.value.key + ":" + r.value.value
      && (CaptureEnd(r.value) == |t| || IsDelimiter(t[CaptureEnd(r.value)])))
  }

  /** Dropping the first character shifts every match start down by one. */
  lemma MatchStartsShift(t: string, p: nat)
    requires 1 <= p <= |t|
    ensures MatchStartsAt(t, p) == MatchStartsAt(t[1..], p - 1)
  {
    assert t[1..][p - 1..] == t[p..];
  }

  /** A slice of `t[1..]` is the slice of `t` one further along. */
  lemma SliceOfTail(t: string, i: nat, j: nat)
    requires i <= j < |t|
    ensures t[1..][i..j] == t[i + 1..j + 1]
  {
  }

  /** No match before offset `k` of `t[1..]` and none at 0 means none up to offset `k` of `t`. */
  lemma NoMatchBeforeShift(t: string, k: nat)
    requires t != [] && !MatchStartsAt(t, 0) && k <= |t|
    requires forall p :: 0 <= p < k ==> !MatchStartsAt(t[1..], p)
    ensures forall p :: 0 <= p <= k ==> !MatchStartsAt(t, p)
  {
    forall p | 1 <= p <= k
      ensures !MatchStartsAt(t, p)
    {
      MatchStartsShift(t, p);
    }
  }

  /** With no match at offset 0, a leftmost match `m` of `t[1..]`, shifted by one, is a leftmost match of `t`. */
  lemma LeftmostShiftMatch(t: string, m: Capture)
    requires t != [] && !MatchStartsAt(t, 0)
    requires Leftmost(t[1..], Some(m))
    ensures Leftmost(t, Some(m.(start := m.start + 1)))
  {
    var m' := m.(start := m.start + 1);
    assert CaptureEnd(m') == CaptureEnd(m) + 1;
    NoMatchBeforeShift(t, m.start);
    MatchStartsShift(t, m'.start);
    SliceOfTail(t, m.start, CaptureEnd(m));
    assert CaptureEnd(m') < |t| ==> t[CaptureEnd(m')] == t[1..][CaptureEnd(m)];
  }

  /** With no match at offset 0, a leftmost match of `t[1..]`, shifted by one, is a leftmost match of `t`. */
  lemma LeftmostShift(t: string, r: Option<Capture>)
    requires t != [] && !MatchStartsAt(t, 0)
    requires Leftmost(t[1..], r)
    ensures Leftmost(t, match r case None => None case Some(m) => Some(m.(start := m.start + 1)))
  {
    match r
    case None =>
      NoMatchBeforeShift(t, |t|);
    case Some(m) =>
      LeftmostShiftMatch(t, m);
  }

  /** When no match starts at offset 0, the leftmost match of `t` is that of `t[1..]`, shifted. */
  lemma LeftmostStep(t: string)
    requires t != [] && !MatchesHere(t)
    requires Leftmost(t[1..], NextCapture(t[1..]))
    ensures Leftmost(t, NextCapture(t))
  {
    assert !MatchStartsAt(t, 0) by { assert t[0..] == t; }
    LeftmostShift(t, NextCapture(t[1..]));
  }

  /** `NextCapture` is the leftmost-first, greedy match. */
  lemma {:induction false} NextCaptureIsLeftmost(t: string)
    ensures Leftmost(t, NextCapture(t))
    decreases |t|
  {
    if t == [] {
      assert forall p :: 0 <= p <= |t| ==> p == 0 && t[p..] == [];
    } else if MatchesHere(t) {
      assert t[0..] == t;
    } else {
      NextCaptureIsLeftmost(t[1..]);
      LeftmostStep(t);
    }
  }

  /** A match needs a `:`, so colon-free text has none. */
  lemma NoColonNoCapture(t: string)
    requires forall i :: 0 <= i < |t| ==> t[i] != ':'
    ensures NextCapture(t) == None
  {
    NextCaptureIsLeftmost(t);
  }

  /** The property map the matches of `t` leave in `acc`, taken left to right. */
  function ParseFrom(t: string, acc: Properties): Properties
    decreases |t|
  {
    match NextCapture(t)
    case None => acc
    case Some(m) => ParseFrom(t[CaptureEnd(m)..], acc[m.key := m.value])
  }

  /** What `parse_properties` returns for a text node. */
  function ParsedProperties(s: string): Properties {
    ParseFrom(s, map[])
  }

  /**
   * `parse_properties`: a loop over the captures of `([^:|]+):([^:|]*)`,
   * inserting group 1 -> group 2 into a fresh map. It never fails.
   */
  method ParseProperties(s: string) returns (props: Properties)
    ensures props == ParsedProperties(s)
    ensures WellFormedProperties(props)
    ensures (forall i :: 0 <= i < |s| ==> s[i] != ':') ==> props == map[]
  {
    props := map[];
    var rest := s;
    var next := NextCapture(rest);
    while next.Some?
      invariant next == NextCapture(rest)
      invariant ParseFrom(rest, props) == ParsedProperties(s)
      invariant WellFormedProperties(props)
      decreases |rest|
    {
      var cap := next.value;
      props := props[cap.key := cap.value];
      rest := rest[CaptureEnd(cap)..];
      next := NextCapture(rest);
    }
    if forall i :: 0 <= i < |s| ==> s[i] != ':' {
      NoColonNoCapture(s);
    }
  }

  /** Applying `(key, value)` insertions left to right: a later key overwrites an earlier one. */
  function InsertAll(acc: Properties, ps: seq<(string, string)>): Properties
    decreases |ps|
  {
    if ps == [] then acc else InsertAll(acc[ps[0].0 := ps[0].1], ps[1..])
  }

  /** No match starts on a delimiter, so the search moves on to the next offset. */
  lemma NextCaptureSkips(c: char, r: string)
    requires IsDelimiter(c)
    ensures NextCapture([c] + r) == match NextCapture(r)
      case None => None
      case Some(m) => Some(m.(start := m.start + 1))
  {
    var t := [c] + r;
    assert t[1..] == r;
    assert RunLength(t) == 0;
  }

  /** A delimiter sitting where a match would start is skipped over. */
  lemma ParseSkipsDelimiter(c: char, r: string, acc: Properties)
    requires IsDelimiter(c)
    ensures ParseFrom([c] + r, acc) == ParseFrom(r, acc)
  {
    var t := [c] + r;
    NextCaptureSkips(c, r);
    match NextCapture(r)
    case None =>
    case Some(m) =>
      var shifted := m.(start := m.start + 1);
      assert NextCapture(t) == Some(shifted);
      assert t[CaptureEnd(shifted)..] == r[CaptureEnd(m)..];
  }

  /** A `|` sitting where a match would start is skipped over. */
  lemma ParseSkipsBar(r: string, acc: Properties)
    ensures ParseFrom("|" + r, acc) == ParseFrom(r, acc)
  {
    assert "|" + r == ['|'] + r;
    ParseSkipsDelimiter('|', r, acc);
  }

  /** The runs in a well-formed entry: the key stops at its `:`, the value at the delimiter after it. */
  lemma EntryRuns(k: string, v: string, tail: string)
    requires IsPropertyKey(k) && IsPropertyText(v)
    requires tail == [] || IsDelimiter(tail[0])
    ensures var t := k + ":" + v + tail;
      && |t| > |k| && RunLength(t) == |k| && t[|k|] == ':' && t[..|k|] == k
      && t[|k| + 1..] == v + tail && RunLength(v + tail) == |v|
  {
    var t := k + ":" + v + tail;
    var after := v + tail;
    assert t == k + ([':'] + after);
    RunLengthPrefix(k, [':'] + after);
    assert t[|k| + 1..] == after;
    RunLengthPrefix(v, tail);
  }

  /** A well-formed entry followed by a delimiter (or nothing) is matched as a whole, at offset 0. */
  lemma CaptureOfEntry(k: string, v: string, tail: string)
    requires IsPropertyKey(k) && IsPropertyText(v)
    requires tail == [] || IsDelimiter(tail[0])
    ensures NextCapture(k + ":" + v + tail) == Some(Capture(0, k, v))
  {
    var t := k + ":" + v + tail;
    EntryRuns(k, v, tail);
    assert MatchesHere(t);
    assert t[|k| + 1..|k| + 1 + |v|] == (v + tail)[..|v|] == v;
  }

  /** Parsing a well-formed entry inserts it and continues after it. */
  lemma ParseEntry(k: string, v: string, tail: string, acc: Properties)
    requires IsPropertyKey(k) && IsPropertyText(v)
    requires tail == [] || IsDelimiter(tail[0])
    ensures ParseFrom(k + ":" + v + tail, acc) == ParseFrom(tail, acc[k := v])
  {
    CaptureOfEntry(k, v, tail);
    var t := k + ":" + v + tail;
    assert t[|k| + 1 + |v|..] == tail;
  }

  /** Matches are taken left to right: parsing joined entries inserts them in order. */
  lemma {:induction false} ParseJoined(ps: seq<(string, string)>, acc: Properties)
    requires WellFormedPairs(ps)
    ensures ParseFrom(JoinPairs(ps), acc) == InsertAll(acc, ps)
    decreases |ps|
  {
    if ps == [] {
      assert NextCapture("") == None;
    } else {
      var k, v := ps[0].0, ps[0].1;
      if |ps| == 1 {
        ParseEntry(k, v, "", acc);
        assert k + ":" + v + "" == JoinPairs(ps);
        assert NextCapture("") == None;
        assert ps[1..] == [];
      } else {
        var rest := JoinPairs(ps[1..]);
        ParseEntry(k, v, "|" + rest, acc);
        assert k + ":" + v + ("|" + rest) == JoinPairs(ps);
        ParseSkipsBar(rest, acc[k := v]);
        ParseJoined(ps[1..], acc[k := v]);
      }
    }
  }

  /** Inserting the entries of `m` under any listing of some of its keys adds exactly those keys' entries. */
  lemma {:induction false} InsertAllEntries(acc: Properties, m: Properties, order: seq<string>)
    requires forall i :: 0 <= i < |order| ==> order[i] in m
    ensures InsertAll(acc, Entries(m, order)) == acc + map k | k in m && k in order :: m[k]
    decreases |order|
  {
    var ps := Entries(m, order);
    if order != [] {
      assert ps[1..] == Entries(m, order[1..]);
      InsertAllEntries(acc[order[0] := m[order[0]]], m, order[1..]);
      InsertFirstEntry(acc, m, order);
    }
  }

  /** Inserting the first key of `order`, then the rest, is inserting all keys of `order`. */
  lemma InsertFirstEntry(acc: Properties, m: Properties, order: seq<string>)
    requires order != [] && order[0] in m
    ensures acc[order[0] := m[order[0]]] + (map k | k in m && k in order[1..] :: m[k])
         == acc + map k | k in m && k in order :: m[k]
  {
    var lhs := acc[order[0] := m[order[0]]] + map k | k in m && k in order[1..] :: m[k];
    var rhs := acc + map k | k in m && k in order :: m[k];
    assert forall k :: k in order <==> k == order[0] || k in order[1..];
    assert lhs.Keys == rhs.Keys;
    assert forall k :: k in lhs ==> lhs[k] == rhs[k];
  }

  /**
   * Round trip: parsing what `serialize_properties` wrote gives the map back,
   * whatever order the map was walked in, provided no key is empty and no key
   * or value contains `:` or `|`.
   */
  lemma PropertiesRoundTrip(m: Properties, order: seq<string>)
    requires WellFormedProperties(m) && IsEnumeration(order, m)
    ensures ParsedProperties(JoinPairs(Entries(m, order))) == m
  {
    var ps := Entries(m, order);
    assert WellFormedPairs(ps);
    ParseJoined(ps, map[]);
    InsertAllEntries(map[], m, order);
    EnumeratedMap(m, order);
  }

  /** Taking every key of an enumeration of `m` gives `m` back. */
  lemma EnumeratedMap(m: Properties, order: seq<string>)
    requires IsEnumeration(order, m)
    ensures map[] + (map k | k in m && k in order :: m[k]) == m
  {
    var back := map[] + map k | k in m && k in order :: m[k];
    assert back.Keys == m.Keys;
  }

  /** Parsing keeps only well-formed entries: every key non-empty, no `:` or `|` in keys or values. */
  lemma {:induction false} ParseFromWellFormed(t: string, acc: Properties)
    requires WellFormedProperties(acc)
    ensures WellFormedProperties(ParseFrom(t, acc))
    decreases |t|
  {
    match NextCapture(t)
    case None =>
    case Some(m) => ParseFromWellFormed(t[CaptureEnd(m)..], acc[m.key := m.value]);
  }

  /** Parsing the empty text, or any text without `:`, adds nothing. */
  lemma ParseWithoutColon(t: string, acc: Properties)
    requires forall i :: 0 <= i < |t| ==> t[i] != ':'
    ensures ParseFrom(t, acc) == acc
  {
    NoColonNoCapture(t);
  }

  /** A later duplicate key overwrites an earlier one: `k:v1|k:v2` reads as `{k: v2}`. */
  lemma DuplicateKeyOverwrites(k: string, v1: string, v2: string)
    requires IsPropertyKey(k) && IsPropertyText(v1) && IsPropertyText(v2)
    ensures ParsedProperties(k + ":" + v1 + "|" + k + ":" + v2) == map[k := v2]
  {
    var second := k + ":" + v2;
    assert k + ":" + v1 + "|" + k + ":" + v2 == k + ":" + v1 + ("|" + second);
    ParseEntry(k, v1, "|" + second, map[]);
    ParseSkipsBar(second, map[k := v1]);
    assert second == k + ":" + v2 + [];
    ParseEntry(k, v2, [], map[k := v1]);
    assert NextCapture([]) == None;
    assert map[k := v1][k := v2] == map[k := v2];
  }

  /** `|props| == 0`: the `skip_serializing_if = "HashMap::is_empty"` test on the property map. */
  predicate SkipProperties(props: Properties) {
    |props| == 0
  }

  // ---------------------------------------------------------------------
  // Consume response: turning the reader's records into typed messages
  // ---------------------------------------------------------------------

  function DecodeMessage(raw: RawConsumerMessage): (msg: ConsumerMessage)
    ensures msg.messageId == raw.messageId && msg.messageBodyMd5 == raw.messageBodyMd5
    ensures msg.receiptHandle == raw.receiptHandle && msg.messageBody == raw.messageBody
    ensures msg.publishTime == raw.publishTime && msg.firstConsumeTime == raw.firstConsumeTime
    ensures msg.nextConsumeTime == raw.nextConsumeTime && msg.consumedTimes == raw.consumedTimes
    ensures msg.messageTag == raw.messageTag
    ensures msg.properties == ParsedProperties(raw.propertiesText)
    ensures WellFormedProperties(msg.properties)
  {
    ParseFromWellFormed(raw.propertiesText, map[]);
    ConsumerMessage(raw.messageId, raw.messageBodyMd5, raw.messageBody, raw.receiptHandle,
                    raw.publishTime, raw.firstConsumeTime, raw.nextConsumeTime,
                    raw.consumedTimes, raw.messageTag, ParsedProperties(raw.propertiesText))
  }

  /**
   * The typed consume reply: the variant the reader chose is kept, messages
   * keep their order and receipt handles, and every property map is the
   * parse of its `<Properties>` text.
   */
  function DecodeConsumerResponse(raw: RawConsumerResponse): (r: ConsumerResponse)
    ensures r.Messages? <==> raw.RawMessages?
    ensures raw.RawError? ==> r.failure == raw.failure
    ensures raw.RawMessages? ==> |r.batch.messages| == |raw.raw|
    ensures raw.RawMessages? ==> forall i :: 0 <= i < |raw.raw| ==>
              r.batch.messages[i] == DecodeMessage(raw.raw[i])
    ensures raw.RawMessages? ==> forall i :: 0 <= i < |raw.raw| ==>
              r.batch.messages[i].receiptHandle == raw.raw[i].receiptHandle
              && WellFormedProperties(r.batch.messages[i].properties)
  {
    match raw
    case RawError(e) => Error(e)
    case RawMessages(ms) =>
      var decoded := seq(|ms|, i requires 0 <= i < |ms| => DecodeMessage(ms[i]));
      Messages(ConsumerMessages(decoded))
  }

  // ---------------------------------------------------------------------
  // Request documents as element trees
  // ---------------------------------------------------------------------

  /** An XML element tree; turning it into text (with escaping) is the XML writer's job. */
  datatype XmlNode = Element(name: string, children: seq<XmlNode>) | CharData(text: string)

  function TextElement(name: string, text: string): XmlNode {
    Element(name, [CharData(text)])
  }

  /** An element called `name` whose only child is text. */
  predicate IsTextElement(x: XmlNode, name: string) {
    x.Element? && x.name == name && |x.children| == 1 && x.children[0].CharData?
  }

  /** The text of the first child element called `name` that holds only text. */
  function ChildText(children: seq<XmlNode>, name: string): Option<string> {
    if children == [] then None
    else if IsTextElement(children[0], name) then Some(children[0].children[0].text)
    else ChildText(children[1..], name)
  }

  /**
   * `PublishMessageRequest` as the serializer lays it out: root `<Message>`,
   * `<MessageBody>`, `<MessageTag>` when there is a tag, and `<Properties>`
   * carrying the serialized property text unless the map is empty.
   */
  function PublishRequestXml(req: PublishMessageRequest, propertiesText: string): XmlNode {
    var tag := match req.messageTag
      case Some(t) => [TextElement("MessageTag", t)]
      case None => [];
    var props := if SkipProperties(req.properties) then [] else [TextElement("Properties", propertiesText)];
    Element("Message", [TextElement("MessageBody", req.messageBody)] + tag + props)
  }

  lemma ChildTextCons(x: XmlNode, rest: seq<XmlNode>, name: string)
    ensures ChildText([x] + rest, name)
         == if IsTextElement(x, name) then Some(x.children[0].text) else ChildText(rest, name)
  {
    assert ([x] + rest)[1..] == rest;
  }

  /** Reading the publish document back gives the body, the tag, and the property text exactly when the map is not empty. */
  lemma PublishRequestXmlFields(req: PublishMessageRequest, propertiesText: string)
    ensures PublishRequestXml(req, propertiesText).name == "Message"
    ensures ChildText(PublishRequestXml(req, propertiesText).children, "MessageBody") == Some(req.messageBody)
    ensures ChildText(PublishRequestXml(req, propertiesText).children, "MessageTag") == req.messageTag
    ensures ChildText(PublishRequestXml(req, propertiesText).children, "Properties")
         == if |req.properties| == 0 then None else Some(propertiesText)
  {
    var body := TextElement("MessageBody", req.messageBody);
    var tag := if req.messageTag.Some? then [TextElement("MessageTag", req.messageTag.value)] else [];
    var props := if |req.properties| == 0 then [] else [TextElement("Properties", propertiesText)];
    var cs := PublishRequestXml(req, propertiesText).children;
    assert cs == [body] + (tag + props);
    ChildTextCons(body, tag + props, "MessageBody");
    ChildTextCons(body, tag + props, "MessageTag");
    ChildTextCons(body, tag + props, "Properties");
    assert ChildText([], "MessageTag") == None;
    assert ChildText([], "Properties") == None;
    if props != [] {
      ChildTextCons(props[0], [], "MessageTag");
      ChildTextCons(props[0], [], "Properties");
      assert props == [props[0]] + [];
    }
    if req.messageTag.Some? {
      assert tag + props == [tag[0]] + props;
      ChildTextCons(tag[0], props, "MessageTag");
      ChildTextCons(tag[0], props, "Properties");
    } else {
      assert tag + props == props;
    }
  }

  /** `AckMessageRequest` as the serializer lays it out: `<ReceiptHandles>` with one `<ReceiptHandle>` per handle. */
  function AckRequestXml(req: AckMessageRequest): XmlNode {
    var hs := req.receiptHandle;
    Element("ReceiptHandles", seq(|hs|, i requires 0 <= i < |hs| => TextElement("ReceiptHandle", hs[i])))
  }

  /** The texts of the `<ReceiptHandle>` children, in document order. */
  function HandlesOf(children: seq<XmlNode>): seq<string> {
    if children == [] then []
    else if IsTextElement(children[0], "ReceiptHandle") then [children[0].children[0].text] + HandlesOf(children[1..])
    else HandlesOf(children[1..])
  }

  /** The ack document carries every receipt handle, once each, in the order given. */
  lemma {:induction false} AckRequestXmlHandles(req: AckMessageRequest)
    ensures AckRequestXml(req).name == "ReceiptHandles"
    ensures HandlesOf(AckRequestXml(req).children) == req.receiptHandle
    decreases |req.receiptHandle|
  {
    var hs := req.receiptHandle;
    if hs != [] {
      var cs := AckRequestXml(req).children;
      AckRequestXmlHandles(AckMessageRequest(hs[1..]));
      assert cs[1..] == AckRequestXml(AckMessageRequest(hs[1..])).children;
    }
  }
}
