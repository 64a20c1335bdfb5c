/**
 The audit-log exporter: `sanitize_body` on a prompt document, and `emit_jsonl`,
 which skips rows and turns timestamps into replay delays (microseconds).
 A JSON null stands for Python's None.
 */
module AuditExport {
  import opened JsonValues
  import opened Options

  const SENSITIVE := "sensitive"
  const STT_ROUTE := "/v1/audio/transcriptions"
  /** The placeholder object, serialised. */
  const PLACEHOLDER := Str("{\"_replay_placeholder\": true}")
  const DROPPED: set<string> := {"audio.filename", "file.url", "image.url"}
  const AUDIO_BYTES: set<string> := {"audio", "file", "data", "bytes"}
  const NESTED_DROPPED: set<string> := {"filename", "url"}

  // ---- Tool calls ----

  predicate HasArguments(call: Json) {
    && call.Obj? && "function" in call.fields
    && call.fields["function"].Obj? && "arguments" in call.fields["function"].fields
  }

  function WithArguments(call: Json, arguments: Json): Json
    requires HasArguments(call)
  {
    var fn := call.fields["function"];
    Obj(call.fields["function" := Obj(fn.fields["arguments" := arguments])])
  }

  function PlaceholderCall(call: Json): Json {
    if HasArguments(call) then WithArguments(call, PLACEHOLDER) else call
  }

  function PlaceholderCalls(calls: Json): Json {
    if calls.Arr?
    then Arr(seq(|calls.items|, i requires 0 <= i < |calls.items| => PlaceholderCall(calls.items[i])))
    else calls
  }

  method PlaceholderToolCalls(toolCalls: Json) returns (r: Json)
    ensures r == PlaceholderCalls(toolCalls)
  {
    if !toolCalls.Arr? {
      return toolCalls;
    }
    var out: seq<Json> := [];
    for i := 0 to |toolCalls.items|
      invariant out == PlaceholderCalls(Arr(toolCalls.items[..i])).items
    {
      var call := toolCalls.items[i];
      if call.Obj? {
        var fields := call.fields;
        if "function" in fields && fields["function"].Obj? && "arguments" in fields["function"].fields {
          fields := fields["function" := Obj(fields["function"].fields["arguments" := PLACEHOLDER])];
        }
        out := out + [Obj(fields)];
      } else {
        out := out + [call];
      }
    }
    assert toolCalls.items[..|toolCalls.items|] == toolCalls.items;
    r := Arr(out);
  }

  // ---- The body ----

  type Fields = map<string, Json>

  function WithPlaceholders(fields: Fields): Fields {
    if "tool_calls" in fields then fields["tool_calls" := PlaceholderCalls(fields["tool_calls"])] else fields
  }

  function SanitizedMessage(m: Json): Json {
    if m.Obj? then Obj(WithPlaceholders(m.fields)) else m
  }

  function SanitizedMessages(messages: Json): Json {
    if messages.Arr?
    then Arr(seq(|messages.items|, i requires 0 <= i < |messages.items| => SanitizedMessage(messages.items[i])))
    else messages
  }

  function Stripped(v: Json): Json {
    if v.Obj? then Obj(v.fields - NESTED_DROPPED) else v
  }

  function StripNested(fields: Fields, parent: string): Fields {
    if parent in fields then fields[parent := Stripped(fields[parent])] else fields
  }

  /** The first stage: tool calls and messages. */
  function CallsReplaced(fields: Fields): Fields {
    var f1 := WithPlaceholders(fields);
    if "messages" in f1 then f1["messages" := SanitizedMessages(f1["messages"])] else f1
  }

  function SanitizedCommon(fields: Fields): Fields {
    StripNested(StripNested(StripNested(CallsReplaced(fields) - DROPPED, "audio"), "file"), "image")
  }

  function MimeOr(mime: Option<string>): string {
    if mime.None? || mime.value == "" then "audio/ogg" else mime.value
  }

  function SanitizedFields(fields: Fields, route: string, mime: Option<string>): Fields {
    var f := SanitizedCommon(fields);
    if route == STT_ROUTE
    then (f - AUDIO_BYTES)["_replay_audio_part" := Str("stub")]["_replay_audio_mime" := Str(MimeOr(mime))]
    else f
  }

  function Sanitized(body: Json, dataClass: string, route: string, mime: Option<string>): Option<Json> {
    if dataClass == SENSITIVE then None
    else
      match body
      case Null => Some(Obj(map[]))
      case Obj(fields) => Some(Obj(SanitizedFields(fields, route, mime)))
      case _ => Some(Obj(map["_replay_unparseable_body" := Bool(true)]))
  }

  method SanitizeBody(body: Json, dataClass: string, route: string, mime: Option<string>) returns (r: Option<Json>)
    ensures r == Sanitized(body, dataClass, route, mime)
  {
    if dataClass == SENSITIVE {
      return None;
    }
    if body.Null? {
      return Some(Obj(map[]));
    }
    if !body.Obj? {
      return Some(Obj(map["_replay_unparseable_body" := Bool(true)]));
    }
    var out := body.fields;
    if "tool_calls" in out {
      var calls := PlaceholderToolCalls(out["tool_calls"]);
      out := out["tool_calls" := calls];
    }
    if "messages" in out {
      var messages := SanitizeMessages(out["messages"]);
      out := out["messages" := messages];
    }
    out := out - DROPPED;
    var parents := ["audio", "file", "image"];
    ghost var start := out;
    for i := 0 to 3
      invariant i == 0 ==> out == start
      invariant i == 1 ==> out == StripNested(start, "audio")
      invariant i == 2 ==> out == StripNested(StripNested(start, "audio"), "file")
      invariant i == 3 ==> out == StripNested(StripNested(StripNested(start, "audio"), "file"), "image")
    {
      if parents[i] in out {
        out := out[parents[i] := Stripped(out[parents[i]])];
      }
    }
    if route == STT_ROUTE {
      out := out - AUDIO_BYTES;
      out := out["_replay_audio_part" := Str("stub")]["_replay_audio_mime" := Str(MimeOr(mime))];
    }
    r := Some(Obj(out));
  }

  method SanitizeMessages(messages: Json) returns (r: Json)
    ensures r == SanitizedMessages(messages)
  {
    if !messages.Arr? {
      return messages;
    }
    var out: seq<Json> := [];
    for i := 0 to |messages.items|
      invariant out == SanitizedMessages(Arr(messages.items[..i])).items
    {
      var m := messages.items[i];
      if m.Obj? && "tool_calls" in m.fields {
        var calls := PlaceholderToolCalls(m.fields["tool_calls"]);
        out := out + [Obj(m.fields["tool_calls" := calls])];
      } else {
        out := out + [m];
      }
    }
    assert messages.items[..|messages.items|] == messages.items;
    r := Arr(out);
  }

  // ---- Nothing free-text is left in tool calls ----

  ghost predicate OnlyPlaceholders(calls: Json) {
    calls.Arr? ==> forall i :: 0 <= i < |calls.items| && HasArguments(calls.items[i]) ==>
                     calls.items[i].fields["function"].fields["arguments"] == PLACEHOLDER
  }

  ghost predicate CallsClean(fields: Fields) {
    "tool_calls" in fields ==> OnlyPlaceholders(fields["tool_calls"])
  }

  ghost predicate BodyClean(fields: Fields) {
    && CallsClean(fields)
    && ("messages" in fields && fields["messages"].Arr? ==>
          forall i :: 0 <= i < |fields["messages"].items| && fields["messages"].items[i].Obj? ==>
            CallsClean(fields["messages"].items[i].fields))
  }

  lemma PlaceholdersStay(calls: Json)
    ensures OnlyPlaceholders(PlaceholderCalls(calls))
    ensures OnlyPlaceholders(calls) ==> PlaceholderCalls(calls) == calls
  {
    if calls.Arr? && OnlyPlaceholders(calls) {
      forall i | 0 <= i < |calls.items|
        ensures PlaceholderCall(calls.items[i]) == calls.items[i]
      {
        var call := calls.items[i];
        if HasArguments(call) {
          var fn := call.fields["function"];
          assert fn.fields["arguments" := PLACEHOLDER] == fn.fields;
          assert call.fields["function" := fn] == call.fields;
        }
      }
      assert PlaceholderCalls(calls).items == calls.items;
    }
  }

  lemma CleanFieldsStay(fields: Fields)
    ensures CallsClean(WithPlaceholders(fields))
    ensures CallsClean(fields) ==> WithPlaceholders(fields) == fields
  {
    if "tool_calls" in fields {
      PlaceholdersStay(fields["tool_calls"]);
    }
  }

  lemma CleanMessagesStay(messages: Json)
    ensures messages.Arr? ==>
              forall i :: 0 <= i < |messages.items| && SanitizedMessages(messages).items[i].Obj? ==>
                CallsClean(SanitizedMessages(messages).items[i].fields)
    ensures (messages.Arr? ==>
               forall i :: 0 <= i < |messages.items| && messages.items[i].Obj? ==> CallsClean(messages.items[i].fields))
            ==> SanitizedMessages(messages) == messages
  {
    if messages.Arr? {
      forall i | 0 <= i < |messages.items| && messages.items[i].Obj?
        ensures CallsClean(SanitizedMessage(messages.items[i]).fields)
        ensures CallsClean(messages.items[i].fields) ==> SanitizedMessage(messages.items[i]) == messages.items[i]
      {
        CleanFieldsStay(messages.items[i].fields);
      }
      if forall i :: 0 <= i < |messages.items| && messages.items[i].Obj? ==> CallsClean(messages.items[i].fields) {
        assert SanitizedMessages(messages).items == messages.items;
      }
    }
  }

  // ---- Idempotence ----

  ghost predicate NestedStripped(fields: Fields, parent: string) {
    parent in fields && fields[parent].Obj? ==> fields[parent].fields.Keys !! NESTED_DROPPED
  }

  /** What sanitising establishes, and what it leaves alone. */
  ghost predicate CommonClean(fields: Fields) {
    && BodyClean(fields)
    && fields.Keys !! DROPPED
    && NestedStripped(fields, "audio") && NestedStripped(fields, "file") && NestedStripped(fields, "image")
  }

  lemma StripNestedFacts(fields: Fields, parent: string)
    ensures StripNested(fields, parent).Keys == fields.Keys
    ensures NestedStripped(StripNested(fields, parent), parent)
    ensures forall k :: k in fields && k != parent ==> StripNested(fields, parent)[k] == fields[k]
    ensures NestedStripped(fields, parent) ==> StripNested(fields, parent) == fields
  {
    if parent in fields && fields[parent].Obj? && NestedStripped(fields, parent) {
      assert fields[parent].fields - NESTED_DROPPED == fields[parent].fields;
    }
  }

  lemma CallsReplacedFacts(fields: Fields)
    ensures BodyClean(CallsReplaced(fields))
    ensures CallsReplaced(fields).Keys == fields.Keys
    ensures forall k :: k in fields && k != "tool_calls" && k != "messages" ==> CallsReplaced(fields)[k] == fields[k]
  {
    CleanFieldsStay(fields);
    if "messages" in fields {
      CleanMessagesStay(WithPlaceholders(fields)["messages"]);
    }
  }

  lemma CommonIsClean(fields: Fields)
    ensures CommonClean(SanitizedCommon(fields))
    ensures SanitizedCommon(fields).Keys == fields.Keys - DROPPED
    ensures forall k :: k in fields && k !in DROPPED + {"tool_calls", "messages", "audio", "file", "image"} ==>
              SanitizedCommon(fields)[k] == fields[k]
  {
    CallsReplacedFacts(fields);
    var f3 := CallsReplaced(fields) - DROPPED;
    var f4 := StripNested(f3, "audio");
    StripNestedFacts(f3, "audio");
    var f5 := StripNested(f4, "file");
    StripNestedFacts(f4, "file");
    StripNestedFacts(f5, "image");
  }

  lemma CleanStays(fields: Fields)
    requires CommonClean(fields)
    ensures SanitizedCommon(fields) == fields
  {
    CleanFieldsStay(fields);
    if "messages" in fields {
      CleanMessagesStay(fields["messages"]);
    }
    assert fields - DROPPED == fields;
    StripNestedFacts(fields, "audio");
    StripNestedFacts(fields, "file");
    StripNestedFacts(fields, "image");
  }

  lemma SttKeepsClean(f: Fields, mime: Option<string>)
    requires CommonClean(f)
    ensures var g := (f - AUDIO_BYTES)["_replay_audio_part" := Str("stub")]["_replay_audio_mime" := Str(MimeOr(mime))];
            && CommonClean(g)
            && (g - AUDIO_BYTES)["_replay_audio_part" := Str("stub")]["_replay_audio_mime" := Str(MimeOr(mime))] == g
  {
    var g := (f - AUDIO_BYTES)["_replay_audio_part" := Str("stub")]["_replay_audio_mime" := Str(MimeOr(mime))];
    assert g - AUDIO_BYTES == g;
    assert g["_replay_audio_part" := Str("stub")] == g;
  }

  /**
   For every object body of a row that is not sensitive: sanitising again changes
   nothing, no tool call at either level keeps its arguments, the dropped keys are gone,
   and so are `filename` and `url` directly under audio, file and image; on the
   transcription route the stub markers replace the audio keys; and every field outside
   the named ones is untouched.
   */
  lemma SanitizeIsIdempotentAndClean(fields: Fields, dataClass: string, route: string, mime: Option<string>)
    requires dataClass != SENSITIVE
    ensures var once := Sanitized(Obj(fields), dataClass, route, mime);
            && once.Some? && once.value.Obj?
            && Sanitized(once.value, dataClass, route, mime) == once
            && CommonClean(once.value.fields)
            && (route == STT_ROUTE ==>
                  once.value.fields.Keys !! AUDIO_BYTES
                  && "_replay_audio_part" in once.value.fields && once.value.fields["_replay_audio_part"] == Str("stub")
                  && "_replay_audio_mime" in once.value.fields
                  && once.value.fields["_replay_audio_mime"] == Str(MimeOr(mime)))
            && (forall k :: k !in Named(route) ==>
                  (k in once.value.fields <==> k in fields)
                  && (k in fields ==> once.value.fields[k] == fields[k]))
  {
    CommonIsClean(fields);
    var f := SanitizedCommon(fields);
    if route == STT_ROUTE {
      SttKeepsClean(f, mime);
    }
    CleanStays(SanitizedFields(fields, route, mime));
  }

  /** The keys a route's sanitising may touch. */
  function Named(route: string): set<string> {
    DROPPED + {"tool_calls", "messages", "audio", "file", "image"}
    + if route == STT_ROUTE then AUDIO_BYTES + {"_replay_audio_part", "_replay_audio_mime"} else {}
  }

  /** Inside the named keys, a tool call changes in its arguments alone, and no call is added or lost. */
  lemma CallsChangeInArgumentsOnly(calls: Json, i: nat)
    requires calls.Arr? && i < |calls.items|
    ensures var after := PlaceholderCalls(calls);
            && |after.items| == |calls.items|
            && HasArguments(after.items[i]) == HasArguments(calls.items[i])
            && (if HasArguments(calls.items[i])
                then WithArguments(after.items[i], calls.items[i].fields["function"].fields["arguments"]) == calls.items[i]
                else after.items[i] == calls.items[i])
  {
    var call := calls.items[i];
    if HasArguments(call) {
      var fn := call.fields["function"];
      assert fn.fields["arguments" := PLACEHOLDER]["arguments" := fn.fields["arguments"]] == fn.fields;
      var back := WithArguments(WithArguments(call, PLACEHOLDER), fn.fields["arguments"]);
      assert back.fields == call.fields;
    }
  }

  // ---- The same, spelled out for a written line ----

  /** Every call of the list that has arguments has the placeholder there. */
  ghost predicate Placeheld(fields: Fields) {
    "tool_calls" in fields && fields["tool_calls"].Arr? ==>
      forall i :: 0 <= i < |fields["tool_calls"].items| ==> CallPlaceheld(fields["tool_calls"].items[i])
  }

  predicate CallPlaceheld(call: Json) {
    call.Obj? && "function" in call.fields && call.fields["function"].Obj?
    && "arguments" in call.fields["function"].fields
    ==> call.fields["function"].fields["arguments"] == Str("{\"_replay_placeholder\": true}")
  }

  ghost predicate LineClean(body: Json, route: string) {
    && body.Obj?
    && Placeheld(body.fields)
    && ("messages" in body.fields && body.fields["messages"].Arr? ==>
          forall i :: 0 <= i < |body.fields["messages"].items| && body.fields["messages"].items[i].Obj? ==>
            Placeheld(body.fields["messages"].items[i].fields))
    && "audio.filename" !in body.fields && "file.url" !in body.fields && "image.url" !in body.fields
    && (forall parent :: parent in ["audio", "file", "image"] && parent in body.fields && body.fields[parent].Obj? ==>
          "filename" !in body.fields[parent].fields && "url" !in body.fields[parent].fields)
    && (route == "/v1/audio/transcriptions" ==>
          "audio" !in body.fields && "file" !in body.fields && "data" !in body.fields && "bytes" !in body.fields)
  }

  lemma CallsCleanIsPlaceheld(fields: Fields)
    requires CallsClean(fields)
    ensures Placeheld(fields)
  {
    if "tool_calls" in fields && fields["tool_calls"].Arr? {
      forall i | 0 <= i < |fields["tool_calls"].items|
        ensures CallPlaceheld(fields["tool_calls"].items[i])
      {
        assert HasArguments(fields["tool_calls"].items[i]) ==>
            fields["tool_calls"].items[i].fields["function"].fields["arguments"] == PLACEHOLDER;
      }
    }
  }

  lemma BodyCleanIsPlaceheld(fields: Fields)
    requires BodyClean(fields)
    ensures Placeheld(fields)
    ensures "messages" in fields && fields["messages"].Arr? ==>
              forall i :: 0 <= i < |fields["messages"].items| && fields["messages"].items[i].Obj? ==>
                Placeheld(fields["messages"].items[i].fields)
  {
    CallsCleanIsPlaceheld(fields);
    if "messages" in fields && fields["messages"].Arr? {
      forall i | 0 <= i < |fields["messages"].items| && fields["messages"].items[i].Obj?
        ensures Placeheld(fields["messages"].items[i].fields)
      {
        CallsCleanIsPlaceheld(fields["messages"].items[i].fields);
      }
    }
  }

  lemma NestedStrippedKeys(fields: Fields, parent: string)
    requires NestedStripped(fields, parent) && parent in fields && fields[parent].Obj?
    ensures "filename" !in fields[parent].fields && "url" !in fields[parent].fields
  {
    assert "filename" in NESTED_DROPPED && "url" in NESTED_DROPPED;
  }

  lemma CommonCleanIsLineClean(fields: Fields, route: string)
    requires CommonClean(fields)
    requires route == STT_ROUTE ==> fields.Keys !! AUDIO_BYTES
    ensures LineClean(Obj(fields), route)
  {
    BodyCleanIsPlaceheld(fields);
    assert "audio.filename" in DROPPED && "file.url" in DROPPED && "image.url" in DROPPED;
    assert "audio" in AUDIO_BYTES && "file" in AUDIO_BYTES && "data" in AUDIO_BYTES && "bytes" in AUDIO_BYTES;
    forall parent | parent in ["audio", "file", "image"] && parent in fields && fields[parent].Obj?
      ensures "filename" !in fields[parent].fields && "url" !in fields[parent].fields
    {
      NestedStrippedKeys(fields, parent);
    }
  }

  /** Which rows are dropped for their class, what a missing or malformed body becomes, and that every line is clean. */
  lemma EveryLineIsClean(body: Json, dataClass: string, route: string, mime: Option<string>)
    ensures var r := Sanitized(body, dataClass, route, mime);
            && (r.None? <==> dataClass == "sensitive")
            && (r.Some? ==> LineClean(r.value, route))
            && (r.Some? && body.Null? ==> r.value == Obj(map[]))
            && (r.Some? && !body.Null? && !body.Obj? ==> r.value == Obj(map["_replay_unparseable_body" := Bool(true)]))
            && (r.Some? && body.Obj? && route == "/v1/audio/transcriptions" ==>
                  && "_replay_audio_part" in r.value.fields && r.value.fields["_replay_audio_part"] == Str("stub")
                  && "_replay_audio_mime" in r.value.fields
                  && r.value.fields["_replay_audio_mime"] ==
                     Str(if mime.Some? && mime.value != "" then mime.value else "audio/ogg"))
  {
    if dataClass != SENSITIVE {
      var r := Sanitized(body, dataClass, route, mime).value;
      if body.Obj? {
        SanitizeIsIdempotentAndClean(body.fields, dataClass, route, mime);
        CommonCleanIsLineClean(r.fields, route);
      } else {
        assert LineClean(r, route);
      }
    }
  }

  /** A message loses nothing but its calls' arguments; what is no object, and the number of messages, stay. */
  lemma MessagesChangeInCallsOnly(messages: Json, i: nat)
    requires messages.Arr? && i < |messages.items|
    ensures var after := SanitizedMessages(messages);
            && after.Arr? && |after.items| == |messages.items|
            && (!messages.items[i].Obj? ==> after.items[i] == messages.items[i])
            && (messages.items[i].Obj? ==>
                  var m, m' := messages.items[i].fields, after.items[i];
                  && m'.Obj? && m'.fields.Keys == m.Keys
                  && (forall k :: k in m && k != "tool_calls" ==> m'.fields[k] == m[k])
                  && ("tool_calls" in m ==> m'.fields["tool_calls"] == PlaceholderCalls(m["tool_calls"])))
  {
  }

  lemma CallsReplacedAt(fields: Fields, k: string)
    requires k in fields
    ensures k in CallsReplaced(fields)
    ensures CallsReplaced(fields)[k] ==
            if k == "tool_calls" then PlaceholderCalls(fields[k])
            else if k == "messages" then SanitizedMessages(fields[k]) else fields[k]
  {
  }

  /** A nested object without its two dropped keys. */
  function WithoutReferences(v: Json): Json {
    if v.Obj? then Obj(map x | x in v.fields && x != "filename" && x != "url" :: v.fields[x]) else v
  }

  lemma StrippedIsWithoutReferences(v: Json)
    ensures Stripped(v) == WithoutReferences(v)
  {
    if v.Obj? {
      assert v.fields - NESTED_DROPPED == WithoutReferences(v).fields;
    }
  }

  lemma NestedStrippedAt(fields: Fields, k: string)
    requires k in fields
    ensures var f := StripNested(StripNested(StripNested(fields, "audio"), "file"), "image");
            k in f && f[k] == if k in ["audio", "file", "image"] then Stripped(fields[k]) else fields[k]
  {
  }

  /** Which keys a sanitised object keeps, and what becomes of the values that may change. */
  lemma WhatSanitizingKeeps(fields: Fields, dataClass: string, route: string, mime: Option<string>, k: string)
    requires dataClass != "sensitive" && k in fields
    requires k !in ["audio.filename", "file.url", "image.url"]
    requires route == "/v1/audio/transcriptions" ==>
               k !in ["audio", "file", "data", "bytes", "_replay_audio_part", "_replay_audio_mime"]
    ensures var r := Sanitized(Obj(fields), dataClass, route, mime).value.fields;
            && k in r
            && r[k] ==
               if k == "tool_calls" then PlaceholderCalls(fields[k])
               else if k == "messages" then SanitizedMessages(fields[k])
               else if k in ["audio", "file", "image"] then WithoutReferences(fields[k])
               else fields[k]
  {
    CallsReplacedAt(fields, k);
    var f := CallsReplaced(fields) - DROPPED;
    assert k !in DROPPED;
    NestedStrippedAt(f, k);
    StrippedIsWithoutReferences(fields[k]);
  }

  // ---- emit_jsonl ----

  datatype AuditEntry = AuditEntry(body: Json, dataClass: string, route: string, mime: Option<string>,
                                   slug: string, ts: Option<int>,
                                   requestId: Option<string>, upstream: Option<string>, statusCode: Option<int>)

  /** The nine keys of an emitted line. */
  datatype Record = Record(requestId: string, ts: Option<int>, slug: string, route: string, upstream: Option<string>,
                           statusCode: int, dataClass: string, delay: int, body: Json)

  function RecordOf(e: AuditEntry, delay: int, body: Json): Record {
    Record(if e.requestId.Some? then e.requestId.value else "", e.ts, e.slug, e.route, e.upstream,
           if e.statusCode.Some? then e.statusCode.value else 0, e.dataClass, delay, body)
  }

  /** The last timestamp among the records. */
  function LastStamp(records: seq<Record>): Option<int> {
    if records == [] then None
    else if records[|records| - 1].ts.Some? then records[|records| - 1].ts
    else LastStamp(records[..|records| - 1])
  }

  function FirstStamp(records: seq<Record>): Option<int> {
    if records == [] then None
    else if FirstStamp(records[..|records| - 1]).Some? then FirstStamp(records[..|records| - 1])
    else records[|records| - 1].ts
  }

  function DelayAfter(prev: Option<int>, ts: Option<int>): int {
    if prev.Some? && ts.Some? && ts.value > prev.value then ts.value - prev.value else 0
  }

  predicate Emitted(e: AuditEntry) {
    e.dataClass != SENSITIVE && e.slug != ""
  }

  function Emit(rows: seq<AuditEntry>): seq<Record> {
    if rows == [] then []
    else
      var before, e := Emit(rows[..|rows| - 1]), rows[|rows| - 1];
      if Emitted(e)
      then before + [RecordOf(e, DelayAfter(LastStamp(before), e.ts),
                              Sanitized(e.body, e.dataClass, e.route, e.mime).value)]
      else before
  }

  /** What one more row adds. */
  lemma EmitOneMore(rows: seq<AuditEntry>, i: nat)
    requires i < |rows|
    ensures var before, e := Emit(rows[..i]), rows[i];
            Emit(rows[..i + 1]) ==
              if Emitted(e)
              then before + [RecordOf(e, DelayAfter(LastStamp(before), e.ts),
                                      Sanitized(e.body, e.dataClass, e.route, e.mime).value)]
              else before
  {
    assert rows[..i + 1][..i] == rows[..i];
  }

  lemma LastStampOfOneMore(before: seq<Record>, r: Record)
    ensures LastStamp(before + [r]) == if r.ts.Some? then r.ts else LastStamp(before)
  {
    assert (before + [r])[..|before|] == before;
  }

  /** The rows that are written: not sensitive, and with a tenant. */
  predicate Kept(e: AuditEntry) {
    e.dataClass != "sensitive" && e.slug != ""
  }

  /** A written line holds its row's fields and the sanitised document. */
  ghost predicate LineOf(line: Record, e: AuditEntry) {
    && line.requestId == (if e.requestId.Some? then e.requestId.value else "")
    && line.slug == e.slug
    && line.route == e.route
    && line.upstream == e.upstream
    && line.statusCode == (if e.statusCode.Some? then e.statusCode.value else 0)
    && line.dataClass == e.dataClass && line.dataClass != "sensitive"
    && line.ts == e.ts
    && Some(line.body) == Sanitized(e.body, e.dataClass, e.route, e.mime)
    && LineClean(line.body, line.route)
  }

  /** The k-th line comes from row source[k]; these are the rows to keep, all of them, in order. */
  ghost predicate Picks<L(!new), R(!new)>(lines: seq<L>, source: seq<nat>, rows: seq<R>, keep: R -> bool, from: (L, R) -> bool) {
    && |source| == |lines|
    && (forall j, k :: 0 <= j < k < |source| ==> source[j] < source[k])
    && (forall k :: 0 <= k < |source| ==>
          source[k] < |rows| && keep(rows[source[k]]) && from(lines[k], rows[source[k]]))
    && (forall i: nat :: i < |rows| && keep(rows[i]) ==> i in source)
  }

  /** A row that is not kept adds no line. */
  lemma PicksSkip<L(!new), R(!new)>(lines: seq<L>, source: seq<nat>, rows: seq<R>, row: R, keep: R -> bool, from: (L, R) -> bool)
    requires Picks(lines, source, rows, keep, from) && !keep(row)
    ensures Picks(lines, source, rows + [row], keep, from)
  {
    forall i: nat | i < |rows + [row]| && keep((rows + [row])[i])
      ensures i in source
    {
      assert i < |rows| && (rows + [row])[i] == rows[i];
    }
  }

  lemma PicksTake<L(!new), R(!new)>(lines: seq<L>, line: L, source: seq<nat>, rows: seq<R>, row: R, keep: R -> bool, from: (L, R) -> bool)
    requires Picks(lines, source, rows, keep, from) && keep(row) && from(line, row)
    ensures Picks(lines + [line], source + [|rows|], rows + [row], keep, from)
  {
    var source' := source + [|rows|];
    forall i: nat | i < |rows + [row]| && keep((rows + [row])[i])
      ensures i in source'
    {
      if i < |rows| {
        assert (rows + [row])[i] == rows[i];
        assert i in source;
      } else {
        assert source'[|source|] == i;
      }
    }
  }

  ghost function LineFrom(): (Record, AuditEntry) -> bool {
    (line: Record, e: AuditEntry) => LineOf(line, e)
  }

  function ToKeep(): AuditEntry -> bool {
    (e: AuditEntry) => Kept(e)
  }

  lemma RecordIsLineOf(e: AuditEntry, delay: int)
    requires Kept(e)
    ensures var body := Sanitized(e.body, e.dataClass, e.route, e.mime);
            body.Some? && LineOf(RecordOf(e, delay, body.value), e)
  {
    EveryLineIsClean(e.body, e.dataClass, e.route, e.mime);
  }

  lemma {:induction false} EmitPicks(rows: seq<AuditEntry>) returns (source: seq<nat>)
    ensures Picks(Emit(rows), source, rows, ToKeep(), LineFrom())
  {
    if rows == [] {
      source := [];
    } else {
      var before, e := rows[..|rows| - 1], rows[|rows| - 1];
      assert rows == before + [e];
      source := EmitPicks(before);
      if Kept(e) {
        RecordIsLineOf(e, DelayAfter(LastStamp(Emit(before)), e.ts));
        PicksTake(Emit(before), Emit(rows)[|Emit(before)|], source, before, e, ToKeep(), LineFrom());
        source := source + [|before|];
      } else {
        PicksSkip(Emit(before), source, before, e, ToKeep(), LineFrom());
      }
    }
  }

  ghost predicate Sourced(written: seq<Record>, source: seq<nat>, rows: seq<AuditEntry>) {
    && |source| == |written|
    && (forall j, k :: 0 <= j < k < |source| ==> source[j] < source[k])
    && (forall k :: 0 <= k < |source| ==>
          source[k] < |rows| && Kept(rows[source[k]]) && LineOf(written[k], rows[source[k]]))
    && (forall i: nat :: i < |rows| && Kept(rows[i]) ==> i in source)
  }

  ghost predicate AllClean(written: seq<Record>) {
    forall k :: 0 <= k < |written| ==> written[k].dataClass != "sensitive" && LineClean(written[k].body, written[k].route)
  }

  lemma EmitIsSourced(rows: seq<AuditEntry>) returns (source: seq<nat>)
    ensures Sourced(Emit(rows), source, rows) && AllClean(Emit(rows))
  {
    source := EmitPicks(rows);
    var lines := Emit(rows);
    forall k | 0 <= k < |source|
      ensures source[k] < |rows| && Kept(rows[source[k]]) && LineOf(lines[k], rows[source[k]])
    {
      assert ToKeep()(rows[source[k]]) && LineFrom()(lines[k], rows[source[k]]);
    }
    forall k | 0 <= k < |lines|
      ensures lines[k].dataClass != "sensitive" && LineClean(lines[k].body, lines[k].route)
    {
      assert LineOf(lines[k], rows[source[k]]);
    }
    forall i: nat | i < |rows| && Kept(rows[i])
      ensures i in source
    {
      assert ToKeep()(rows[i]);
    }
  }

  /** The rows without a tenant that are not dropped for their class. */
  function Tenantless(rows: seq<AuditEntry>): nat {
    if rows == [] then 0
    else
      var e := rows[|rows| - 1];
      Tenantless(rows[..|rows| - 1]) + if e.dataClass != "sensitive" && e.slug == "" then 1 else 0
  }

  /** `source` says which row each line comes from. */
  method EmitJsonl(rows: seq<AuditEntry>)
    returns (written: seq<Record>, emitted: nat, skipped: nat, errors: nat, ghost source: seq<nat>)
    ensures written == Emit(rows)
    ensures Sourced(written, source, rows)
    ensures AllClean(written)
    ensures emitted == |written| && emitted + skipped == |rows| && errors == Tenantless(rows)
  {
    written, emitted, skipped, errors := WriteLines(rows);
    source := EmitIsSourced(rows);
  }

  /** The loop over the rows. */
  method WriteLines(rows: seq<AuditEntry>) returns (written: seq<Record>, emitted: nat, skipped: nat, errors: nat)
    ensures written == Emit(rows)
    ensures emitted == |written| && emitted + skipped == |rows| && errors == Tenantless(rows)
  {
    written, emitted, skipped, errors := [], 0, 0, 0;
    var prevTs: Option<int> := None;
    for i := 0 to |rows|
      invariant written == Emit(rows[..i]) && prevTs == LastStamp(written)
      invariant emitted == |written| && emitted + skipped == i && errors == Tenantless(rows[..i])
    {
      var row := rows[i];
      EmitOneMore(rows, i);
      assert rows[..i + 1][..i] == rows[..i];
      var sanitized := SanitizeBody(row.body, row.dataClass, row.route, row.mime);
      if sanitized.None? {
        skipped := skipped + 1;
      } else if row.slug == "" {
        errors, skipped := errors + 1, skipped + 1;
      } else {
        var delay := 0;
        if row.ts.Some? && prevTs.Some? {
          delay := if row.ts.value - prevTs.value > 0 then row.ts.value - prevTs.value else 0;
        }
        if row.ts.Some? {
          prevTs := row.ts;
        }
        var requestId := if row.requestId.Some? then row.requestId.value else "";
        var statusCode := if row.statusCode.Some? then row.statusCode.value else 0;
        var record := Record(requestId, row.ts, row.slug, row.route, row.upstream,
                             statusCode, row.dataClass, delay, sanitized.value);
        LastStampOfOneMore(written, record);
        written := written + [record];
        emitted := emitted + 1;
      }
    }
    assert rows[..|rows|] == rows;
  }

  /** A line's delay is the time since the last timestamp written, and none when that is missing or not earlier. */
  lemma DelayIsTheGap(rows: seq<AuditEntry>, e: AuditEntry)
    requires Kept(e)
    ensures var before, lines := Emit(rows), Emit(rows + [e]);
            && |lines| == |before| + 1 && lines[..|before|] == before
            && lines[|before|].delay ==
               if LastStamp(before).Some? && e.ts.Some? && LastStamp(before).value < e.ts.value
               then e.ts.value - LastStamp(before).value else 0
  {
    assert (rows + [e])[..|rows|] == rows;
  }

  function TotalDelay(records: seq<Record>): int {
    if records == [] then 0 else TotalDelay(records[..|records| - 1]) + records[|records| - 1].delay
  }

  /** No record's timestamp is before the last one ahead of it. */
  predicate Ordered(records: seq<Record>) {
    if records == [] then true
    else
      var before, ts := records[..|records| - 1], records[|records| - 1].ts;
      Ordered(before) && (LastStamp(before).Some? && ts.Some? ==> LastStamp(before).value <= ts.value)
  }

  lemma {:induction false} StampsComeTogether(records: seq<Record>)
    ensures FirstStamp(records).Some? <==> LastStamp(records).Some?
  {
    if records != [] {
      StampsComeTogether(records[..|records| - 1]);
    }
  }

  /**
   The delays of the emitted records telescope to the span between the first and last
   emitted timestamps exactly when those timestamps are in order, whatever was skipped
   in between; out of order they only exceed it.
   */
  lemma {:induction false} DelaysTelescope(rows: seq<AuditEntry>)
    requires LastStamp(Emit(rows)).Some? && FirstStamp(Emit(rows)).Some?
    ensures var records := Emit(rows);
            && TotalDelay(records) >= LastStamp(records).value - FirstStamp(records).value
            && (TotalDelay(records) == LastStamp(records).value - FirstStamp(records).value <==> Ordered(records))
  {
    var before, e := rows[..|rows| - 1], rows[|rows| - 1];
    if !Emitted(e) {
      DelaysTelescope(before);
    } else {
      var records := Emit(rows);
      assert records[..|records| - 1] == Emit(before);
      StampsComeTogether(Emit(before));
      if LastStamp(Emit(before)).Some? {
        DelaysTelescope(before);
      } else {
        NoStampNoDelay(before);
      }
    }
  }

  lemma {:induction false} NoStampNoDelay(rows: seq<AuditEntry>)
    requires LastStamp(Emit(rows)).None?
    ensures TotalDelay(Emit(rows)) == 0 && Ordered(Emit(rows))
  {
    if rows != [] {
      var before, records := rows[..|rows| - 1], Emit(rows);
      if Emitted(rows[|rows| - 1]) {
        assert records[..|records| - 1] == Emit(before);
      }
      NoStampNoDelay(before);
    }
  }
}
