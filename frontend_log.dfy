/**
 * The log entry the browser posts to /api/log, as Jackson reads it: every component nullable, the
 * meta object as its entries in document order with each value already in its String.valueOf form.
 * Both versions of the record share these components; one validates sizes and requires a level, the
 * other defaults a missing level to INFO. Both default meta and message the same way.
 */
module FrontendLogEntries {
  import opened Wrappers
  import opened Text

  /** FrontendLogLevel, as the controller's switch lists it. */
  datatype Level = ERROR | WARN | INFO

  datatype LogError = LogError(message: Option<string>, name: Option<string>, stack: Option<string>)

  /** A JSON object's entries: key and rendered value, keys distinct in a well-formed map. */
  type MetaEntries = seq<(string, string)>

  datatype FrontendLogEntry = FrontendLogEntry(context: Option<string>, event: Option<string>, level: Option<Level>,
                                               message: Option<string>, meta: Option<MetaEntries>,
                                               error: Option<LogError>, timestamp: Option<string>)

  predicate Present(s: Option<string>) {
    s.Some? && !IsBlank(s.value)
  }

  /** At most max characters, a null value included. */
  predicate SizeAtMost(s: Option<string>, max: nat) {
    s.None? || |s.value| <= max
  }

  /** The bean-validation constraints on the record's components. */
  predicate Valid(e: FrontendLogEntry) {
    && SizeAtMost(e.context, 200)
    && SizeAtMost(e.event, 200)
    && e.level.Some?
    && SizeAtMost(e.message, 2000)
    && (e.meta.None? || |e.meta.value| <= 50)
    && SizeAtMost(e.timestamp, 64)
  }

  /** meta(): never null, the empty map when none was sent. */
  function Meta(e: FrontendLogEntry): (r: MetaEntries)
    ensures e.meta.None? ==> r == []
    ensures e.meta.Some? ==> r == e.meta.value
  {
    e.meta.GetOr([])
  }

  /** message(): the message when it is non-blank, else the event when that is, else a fixed text. */
  function Message(e: FrontendLogEntry): (r: string)
    ensures !IsBlank(r)
    ensures Present(e.message) ==> r == e.message.value
    ensures !Present(e.message) && Present(e.event) ==> r == e.event.value
    ensures !Present(e.message) && !Present(e.event) ==> r == "Frontend event"
  {
    if Present(e.message) then e.message.value
    else if Present(e.event) then e.event.value
    else
      assert !IsSpace("Frontend event"[0]);
      "Frontend event"
  }

  /** level() of the version without validation: INFO when none was sent. */
  function DefaultedLevel(e: FrontendLogEntry): (r: Level)
    ensures e.level.Some? ==> r == e.level.value
    ensures e.level.None? ==> r == INFO
  {
    e.level.GetOr(INFO)
  }

  /** On a valid entry the message is bounded by the message and event limits. */
  lemma ValidMessageBound(e: FrontendLogEntry)
    requires Valid(e)
    ensures |Message(e)| <= 2000
    ensures |Meta(e)| <= 50
  {
  }

  /** The message is the sender's whenever it has any visible character, whatever the event says. */
  lemma MessageIgnoresEvent(e: FrontendLogEntry, event: Option<string>)
    requires Present(e.message)
    ensures Message(e.(event := event)) == Message(e)
  {
  }

  /** A valid entry's level is the one sent, so both versions agree on it. */
  lemma ValidLevelsAgree(e: FrontendLogEntry)
    requires Valid(e)
    ensures DefaultedLevel(e) == e.level.value
  {
  }
}

/**
 * The endpoint that writes the browser's log entries to the server log: it refuses a meta object
 * with more than 25 entries, and logs at the entry's level the source, the present context, event
 * and timestamp, the meta entries and the error details as key-values, each value with its line
 * breaks turned into spaces, trimmed and cut to 500 characters, and the message cut to 2000.
 */
module FrontendLogController {
  import opened Wrappers
  import opened Text
  import opened FrontendLogEntries
  import Sequences

  const MaxMessageLen: nat := 2000
  const MaxValueLen: nat := 500
  const MaxMetaEntries: nat := 25

  predicate NoLineBreaks(s: string) {
    forall i :: 0 <= i < |s| ==> s[i] != '\r' && s[i] != '\n'
  }

  /** Line breaks become spaces. */
  function Flatten(s: string): (r: string)
    ensures |r| == |s| && NoLineBreaks(r)
    ensures forall i :: 0 <= i < |s| ==> r[i] == (if s[i] == '\r' || s[i] == '\n' then ' ' else s[i])
  {
    ReplaceChar(ReplaceChar(s, '\r', ' '), '\n', ' ')
  }

  lemma FlattenBlank(s: string)
    ensures IsBlank(Flatten(s)) <==> IsBlank(s)
  {
  }

  lemma {:induction false} TrimNoLineBreaks(s: string)
    requires NoLineBreaks(s)
    ensures NoLineBreaks(Trim(s))
  {
    var t := TrimStart(s);
    assert NoLineBreaks(t) by {
      forall i | 0 <= i < |t| ensures t[i] != '\r' && t[i] != '\n' {
        assert t[i] == s[|s| - |t| + i];
      }
    }
  }

  /**
   * sanitize: null stays null; otherwise the value with its line breaks as spaces and trimmed, and
   * when that is longer than maxLen its first maxLen characters followed by "...".
   */
  function Sanitize(value: Option<string>, maxLen: nat): (r: Option<string>)
    ensures r.None? <==> value.None?
    ensures r.Some? ==> NoLineBreaks(r.value) && |r.value| <= maxLen + 3
    ensures r.Some? ==> (IsBlank(r.value) <==> IsBlank(value.value))
    ensures r.Some? && |Trim(Flatten(value.value))| <= maxLen ==> r.value == Trim(Flatten(value.value))
    ensures r.Some? && |Trim(Flatten(value.value))| > maxLen ==> r.value == Trim(Flatten(value.value))[..maxLen] + "..."
  {
    if value.None? then None
    else
      var v := Trim(Flatten(value.value));
      FlattenBlank(value.value);
      TrimNoLineBreaks(Flatten(value.value));
      if |v| > maxLen then
        var cut := v[..maxLen] + "...";
        assert !IsSpace(cut[|cut| - 1]);
        Some(cut)
      else Some(v)
  }

  /** A value that already fits comes back unchanged from a second sanitize. */
  lemma SanitizeIdempotent(value: string, maxLen: nat)
    requires |Trim(Flatten(value))| <= maxLen
    ensures Sanitize(Sanitize(Some(value), maxLen), maxLen) == Sanitize(Some(value), maxLen)
  {
    var v := Trim(Flatten(value));
    TrimNoLineBreaks(Flatten(value));
    assert Flatten(v) == v;
    TrimIdempotent(Flatten(value));
  }

  /** The keys of a list of entries. */
  function Keys<V>(entries: seq<(string, V)>): set<string> {
    if entries == [] then {} else {entries[0].0} + Keys(entries[1..])
  }

  /** No key appears twice. */
  predicate DistinctKeys<V>(entries: seq<(string, V)>) {
    entries == [] || (entries[0].0 !in Keys(entries[1..]) && DistinctKeys(entries[1..]))
  }

  /** The entries without those whose key is k. */
  function WithoutKey(meta: MetaEntries, k: string): (r: MetaEntries)
    ensures |r| <= |meta|
    ensures Keys(r) == Keys(meta) - {k}
    ensures k !in Keys(meta) ==> r == meta
  {
    if meta == [] then []
    else if meta[0].0 == k then WithoutKey(meta[1..], k)
    else [meta[0]] + WithoutKey(meta[1..], k)
  }

  /** One meta entry with its value sanitized to 500 characters. */
  function SafeEntry(entry: (string, string)): (r: (string, string))
    ensures NoLineBreaks(r.1) && |r.1| <= MaxValueLen + 3
  {
    (entry.0, Sanitize(Some(entry.1), MaxValueLen).value)
  }

  /**
   * safeMeta: Collectors.toMap into a LinkedHashMap keeping the first value for a repeated key, each
   * value sanitized to 500 characters.
   */
  function SafeMeta(meta: MetaEntries): (r: MetaEntries)
    ensures DistinctKeys(r) && Keys(r) == Keys(meta) && |r| <= |meta| && (r == [] <==> meta == [])
    ensures SafeValues(r)
    decreases |meta|
  {
    if meta == [] then []
    else
      var head := SafeEntry(meta[0]);
      var rest := SafeMeta(WithoutKey(meta[1..], meta[0].0));
      ConsKeys(head, rest);
      ConsSafeValues(head, rest);
      [head] + rest
  }

  /** Every value without line breaks and at most 503 characters long. */
  predicate SafeValues(entries: MetaEntries) {
    forall i :: 0 <= i < |entries| ==> NoLineBreaks(entries[i].1) && |entries[i].1| <= MaxValueLen + 3
  }

  lemma ConsSafeValues(head: (string, string), rest: MetaEntries)
    requires NoLineBreaks(head.1) && |head.1| <= MaxValueLen + 3 && SafeValues(rest)
    ensures SafeValues([head] + rest)
  {
    var r := [head] + rest;
    forall i | 0 <= i < |r|
      ensures NoLineBreaks(r[i].1) && |r[i].1| <= MaxValueLen + 3
    {
      if i > 0 {
        assert r[i] == rest[i - 1];
      }
    }
  }

  /** The keys of an entry put in front, and when they stay distinct. */
  lemma ConsKeys<V>(head: (string, V), rest: seq<(string, V)>)
    ensures Keys([head] + rest) == {head.0} + Keys(rest)
    ensures DistinctKeys([head] + rest) <==> head.0 !in Keys(rest) && DistinctKeys(rest)
  {
    assert ([head] + rest)[1..] == rest;
  }

  /** The entries of a map have distinct keys, and then every entry is kept in its place, its value sanitized. */
  lemma {:induction false} SafeMetaOfMap(meta: MetaEntries)
    requires DistinctKeys(meta)
    ensures |SafeMeta(meta)| == |meta|
    ensures forall i :: 0 <= i < |meta| ==> SafeMeta(meta)[i] == SafeEntry(meta[i])
  {
    if meta != [] {
      SafeMetaOfMap(meta[1..]);
      assert WithoutKey(meta[1..], meta[0].0) == meta[1..];
      var r, rest := SafeMeta(meta), SafeMeta(meta[1..]);
      assert r == [SafeEntry(meta[0])] + rest;
      forall i | 0 <= i < |meta|
        ensures r[i] == SafeEntry(meta[i])
      {
        if i > 0 {
          assert r[i] == rest[i - 1];
          assert meta[1..][i - 1] == meta[i];
        }
      }
    }
  }

  /** A key-value of the log event: a text, or the meta entries as one map. */
  datatype LogValue = Text(text: string) | Entries(entries: MetaEntries)

  /** Why a post is refused with 400: a failed validation constraint, or too many meta entries. */
  datatype Rejection = InvalidPayload | TooManyMetaEntries

  datatype LogEvent = LogEvent(level: Level, keyValues: seq<(string, LogValue)>, message: string)

  /** addIfPresent: the key with its sanitized value, when that is non-null and non-blank. */
  function IfPresent(key: string, value: Option<string>): (r: seq<(string, LogValue)>)
    ensures |r| <= 1
    ensures r != [] <==> Present(value)
    ensures r != [] ==> r[0].0 == key && r[0].1 == Text(Sanitize(value, MaxValueLen).value)
  {
    var safe := Sanitize(value, MaxValueLen);
    if safe.Some? && !IsBlank(safe.value) then [(key, Text(safe.value))] else []
  }

  /** addErrorDetails: nothing without an error, else its present message, name and stack. */
  function ErrorDetails(error: Option<LogError>): (r: seq<(string, LogValue)>)
    ensures error.None? ==> r == []
    ensures |r| <= 3
  {
    if error.None? then []
    else IfPresent("errorMessage", error.value.message) + IfPresent("errorName", error.value.name)
         + IfPresent("errorStack", error.value.stack)
  }

  /** The key-values of an accepted entry, in the order they are added. */
  function KeyValues(p: FrontendLogEntry): seq<(string, LogValue)> {
    [("source", Text("frontend"))] + IfPresent("context", p.context) + IfPresent("event", p.event)
    + IfPresent("timestamp", p.timestamp)
    + MetaKeyValue(p) + ErrorDetails(p.error)
  }

  /** The meta entries as one key-value, when there are any. */
  function MetaKeyValue(p: FrontendLogEntry): (r: seq<(string, LogValue)>)
    ensures r == [] <==> Meta(p) == []
    ensures r != [] ==> r == [("meta", Entries(SafeMeta(Meta(p))))]
  {
    if Meta(p) != [] then [("meta", Entries(SafeMeta(Meta(p))))] else []
  }

  /** receiveFrontendLog: the event it logs, or why the post is refused. */
  function Receive(p: FrontendLogEntry): (r: Result<LogEvent, Rejection>)
    ensures r.Err? <==> !Valid(p) || |Meta(p)| > MaxMetaEntries
    ensures r.Err? ==> (r.error == InvalidPayload <==> !Valid(p))
  {
    if !Valid(p) then Err(InvalidPayload)
    else if |Meta(p)| > MaxMetaEntries then Err(TooManyMetaEntries)
    else Ok(LogEvent(p.level.value, KeyValues(p), Sanitize(Some(Message(p)), MaxMessageLen).value))
  }

  /** A value whose text the log shows safely: no line breaks, something visible, bounded. */
  predicate SafeValue(v: LogValue) {
    match v
    case Text(t) => NoLineBreaks(t) && !IsBlank(t) && |t| <= MaxValueLen + 3
    case Entries(entries) =>
      && 0 < |entries| <= MaxMetaEntries && DistinctKeys(entries)
      && forall i :: 0 <= i < |entries| ==> NoLineBreaks(entries[i].1) && |entries[i].1| <= MaxValueLen + 3
  }

  predicate AllSafe(kvs: seq<(string, LogValue)>) {
    kvs == [] || (SafeValue(kvs[0].1) && AllSafe(kvs[1..]))
  }

  lemma {:induction false} AllSafeAppend(a: seq<(string, LogValue)>, b: seq<(string, LogValue)>)
    requires AllSafe(a) && AllSafe(b)
    ensures AllSafe(a + b)
  {
    if a != [] {
      AllSafeAppend(a[1..], b);
      assert (a + b)[1..] == a[1..] + b;
    } else {
      assert a + b == b;
    }
  }

  /** AllSafe holds exactly when every value is safe. */
  lemma {:induction false} AllSafeEach(kvs: seq<(string, LogValue)>)
    ensures AllSafe(kvs) <==> forall i :: 0 <= i < |kvs| ==> SafeValue(kvs[i].1)
  {
    if kvs != [] {
      AllSafeEach(kvs[1..]);
      assert forall i :: 1 <= i < |kvs| ==> kvs[i] == kvs[1..][i - 1];
    }
  }

  lemma IfPresentSafe(key: string, value: Option<string>)
    ensures AllSafe(IfPresent(key, value))
  {
  }

  /**
   * Everything an accepted entry logs is bounded and on one line: every key-value is safe, the
   * source comes first, the level is the one sent, and the message is the entry's message with its
   * line breaks as spaces and trimmed, never cut since validation bounds it below 2000, and never blank.
   */
  lemma ReceivedEventSafe(p: FrontendLogEntry)
    requires Receive(p).Ok?
    ensures var e := Receive(p).value;
      && e.level == p.level.value
      && e.keyValues[0] == ("source", Text("frontend"))
      && (forall i :: 0 <= i < |e.keyValues| ==> SafeValue(e.keyValues[i].1))
      && e.message == Trim(Flatten(Message(p)))
      && NoLineBreaks(e.message) && !IsBlank(e.message)
  {
    KeyValuesSafe(p);
    AllSafeEach(KeyValues(p));
    ValidMessageBound(p);
    TrimLength(Flatten(Message(p)));
  }

  /** Every key-value of an entry with at most 25 meta entries is safe. */
  lemma KeyValuesSafe(p: FrontendLogEntry)
    requires |Meta(p)| <= MaxMetaEntries
    ensures KeyValues(p)[0] == ("source", Text("frontend"))
    ensures AllSafe(KeyValues(p))
  {
    var head := [("source", Text("frontend"))] + IfPresent("context", p.context) + IfPresent("event", p.event)
      + IfPresent("timestamp", p.timestamp);
    HeaderSafe(p);
    MetaSafe(p);
    ErrorDetailsSafe(p.error);
    AllSafeAppend(head, MetaKeyValue(p));
    AllSafeAppend(head + MetaKeyValue(p), ErrorDetails(p.error));
  }

  lemma HeaderSafe(p: FrontendLogEntry)
    ensures AllSafe([("source", Text("frontend"))] + IfPresent("context", p.context) + IfPresent("event", p.event)
      + IfPresent("timestamp", p.timestamp))
  {
    var head := [("source", Text("frontend"))];
    assert AllSafe(head) by {
      assert !IsSpace("frontend"[0]);
    }
    var context, event := IfPresent("context", p.context), IfPresent("event", p.event);
    IfPresentSafe("context", p.context);
    IfPresentSafe("event", p.event);
    IfPresentSafe("timestamp", p.timestamp);
    AllSafeAppend(head, context);
    AllSafeAppend(head + context, event);
    AllSafeAppend(head + context + event, IfPresent("timestamp", p.timestamp));
  }

  lemma MetaSafe(p: FrontendLogEntry)
    requires |Meta(p)| <= MaxMetaEntries
    ensures AllSafe(MetaKeyValue(p))
  {
    if Meta(p) != [] {
      assert SafeValue(Entries(SafeMeta(Meta(p))));
    }
  }

  lemma ErrorDetailsSafe(error: Option<LogError>)
    ensures AllSafe(ErrorDetails(error))
  {
    if error.Some? {
      var e := error.value;
      IfPresentSafe("errorMessage", e.message);
      IfPresentSafe("errorName", e.name);
      IfPresentSafe("errorStack", e.stack);
      AllSafeAppend(IfPresent("errorMessage", e.message), IfPresent("errorName", e.name));
      AllSafeAppend(IfPresent("errorMessage", e.message) + IfPresent("errorName", e.name), IfPresent("errorStack", e.stack));
    }
  }

  lemma TrimLength(s: string)
    ensures |Trim(s)| <= |s|
  {
  }

  /** Only the two refusals exist, and a valid entry is refused only for its meta. */
  lemma RejectedOnlyForMeta(p: FrontendLogEntry)
    requires Valid(p)
    ensures Receive(p).Err? <==> |Meta(p)| > MaxMetaEntries
    ensures Receive(p).Err? ==> Receive(p).error == TooManyMetaEntries
  {
  }

  /** The log event as the logging API's builder accumulates it. */
  class LogEventBuilder {
    var level: Level
    var keyValues: seq<(string, LogValue)>
    var logged: Option<string>

    /** log.atError(), atWarn() or atInfo(). */
    constructor (level: Level)
      ensures this.level == level && keyValues == [] && logged == None
    {
      this.level := level;
      keyValues := [];
      logged := None;
    }

    method AddKeyValue(key: string, value: LogValue)
      modifies this
      ensures level == old(level) && logged == old(logged)
      ensures keyValues == old(keyValues) + [(key, value)]
    {
      keyValues := keyValues + [(key, value)];
    }

    method Log(message: string)
      modifies this
      ensures level == old(level) && keyValues == old(keyValues)
      ensures logged == Some(message)
    {
      logged := Some(message);
    }
  }

  method AddIfPresent(builder: LogEventBuilder, key: string, value: Option<string>)
    modifies builder
    ensures builder.level == old(builder.level) && builder.logged == old(builder.logged)
    ensures builder.keyValues == old(builder.keyValues) + IfPresent(key, value)
  {
    var safe := Sanitize(value, MaxValueLen);
    if safe.Some? && !IsBlank(safe.value) {
      builder.AddKeyValue(key, Text(safe.value));
    }
  }

  method AddErrorDetails(error: Option<LogError>, builder: LogEventBuilder)
    modifies builder
    ensures builder.level == old(builder.level) && builder.logged == old(builder.logged)
    ensures builder.keyValues == old(builder.keyValues) + ErrorDetails(error)
  {
    if error.None? {
      return;
    }
    ghost var start := builder.keyValues;
    AddIfPresent(builder, "errorMessage", error.value.message);
    AddIfPresent(builder, "errorName", error.value.name);
    AddIfPresent(builder, "errorStack", error.value.stack);
    Sequences.Concat3(start, IfPresent("errorMessage", error.value.message), IfPresent("errorName", error.value.name),
                      IfPresent("errorStack", error.value.stack));
  }

  /**
   * receiveFrontendLog: a refused entry logs nothing; an accepted one gets a fresh builder at its
   * level that ends holding exactly the event Receive describes.
   */
  method ReceiveFrontendLog(p: FrontendLogEntry) returns (r: Result<LogEventBuilder, Rejection>)
    ensures r.Err? <==> Receive(p).Err?
    ensures r.Err? ==> r.error == Receive(p).error
    ensures r.Ok? ==> fresh(r.value)
    ensures r.Ok? ==> r.value.level == Receive(p).value.level && r.value.keyValues == Receive(p).value.keyValues
    ensures r.Ok? ==> r.value.logged == Some(Receive(p).value.message)
  {
    if !Valid(p) {
      return Err(InvalidPayload);
    }
    if |Meta(p)| > MaxMetaEntries {
      return Err(TooManyMetaEntries);
    }
    var builder := new LogEventBuilder(p.level.value);
    builder.AddKeyValue("source", Text("frontend"));
    ghost var expected := [("source", Text("frontend"))];
    assert builder.keyValues == expected;
    AddIfPresent(builder, "context", p.context);
    expected := expected + IfPresent("context", p.context);
    assert builder.keyValues == expected;
    AddIfPresent(builder, "event", p.event);
    expected := expected + IfPresent("event", p.event);
    assert builder.keyValues == expected;
    AddIfPresent(builder, "timestamp", p.timestamp);
    expected := expected + IfPresent("timestamp", p.timestamp);
    assert builder.keyValues == expected;
    if Meta(p) != [] {
      builder.AddKeyValue("meta", Entries(SafeMeta(Meta(p))));
    }
    expected := expected + MetaKeyValue(p);
    assert builder.keyValues == expected;
    AddErrorDetails(p.error, builder);
    expected := expected + ErrorDetails(p.error);
    assert builder.keyValues == expected;
    builder.Log(Sanitize(Some(Message(p)), MaxMessageLen).value);
    r := Ok(builder);
  }
}
