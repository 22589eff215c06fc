/** What an event envelope is turned into before it is stored: checked, trimmed, and
    with the values of sensitive fields redacted at every depth. Lower-casing is a
    function nothing is assumed about. */
module Normalization {
  import opened Wrappers
  import opened Times
  import opened Strings
  import opened Router
  import opened EventStore

  // ---- Redaction ------------------------------------------------------------

  const MARKERS := [
    "token", "secret", "password", "authorization", "cookie", "api_key", "apikey", "private_key", "privatekey",
    "credential"]
  const REDACTED := Text("[REDACTED]")

  predicate Contains(text: string, part: string) {
    part <= text || (text != "" && Contains(text[1..], part))
  }

  predicate Sensitive(lower: string -> string, key: string) {
    exists i :: 0 <= i < |MARKERS| && Contains(lower(key), MARKERS[i])
  }

  ghost predicate HasPart(text: string, part: string) {
    exists before, after :: text == before + part + after
  }

  lemma HasPartFromStart(text: string, part: string)
    requires text != ""
    ensures HasPart(text, part) <==> part <= text || HasPart(text[1..], part)
  {
    if part <= text {
      assert text == "" + part + text[|part|..];
    }
    if HasPart(text[1..], part) {
      var before, after :| text[1..] == before + part + after;
      assert text == [text[0]] + before + part + after;
    }
    forall before, after | text == before + part + after ensures part <= text || HasPart(text[1..], part) {
      if before == "" {
        assert text == part + after;
      } else {
        assert text[1..] == before[1..] + part + after;
      }
    }
  }

  lemma {:induction false} ContainsExactly(text: string, part: string)
    ensures Contains(text, part) <==> HasPart(text, part)
  {
    if text == "" {
      assert part == "" ==> text == "" + part + "";
    } else {
      ContainsExactly(text[1..], part);
      HasPartFromStart(text, part);
    }
  }

  /** A field is sensitive exactly when its name, in lower case, has one of these words
      in it. */
  lemma SensitiveExactly(lower: string -> string, key: string)
    ensures Sensitive(lower, key) <==> exists word ::
      && word in {"token", "secret", "password", "authorization", "cookie", "api_key", "apikey", "private_key",
                  "privatekey", "credential"}
      && HasPart(lower(key), word)
  {
    if Sensitive(lower, key) {
      var i :| 0 <= i < |MARKERS| && Contains(lower(key), MARKERS[i]);
      ContainsExactly(lower(key), MARKERS[i]);
    }
    forall word | word in MARKERS && HasPart(lower(key), word) ensures Sensitive(lower, key) {
      ContainsExactly(lower(key), word);
    }
  }

  function Redact(lower: string -> string, value: Json): Json {
    match value
    case Items(items) => Items(seq(|items|, i requires 0 <= i < |items| => Redact(lower, items[i])))
    case Object(fields) =>
      Object(map key | key in fields :: if Sensitive(lower, key) then REDACTED else Redact(lower, fields[key]))
    case _ => value
  }

  /** No sensitive field holds a value of its own, at any depth. */
  predicate NothingSensitive(lower: string -> string, value: Json) {
    match value
    case Items(items) => forall i :: 0 <= i < |items| ==> NothingSensitive(lower, items[i])
    case Object(fields) =>
      forall key :: key in fields ==>
        if Sensitive(lower, key) then fields[key] == REDACTED else NothingSensitive(lower, fields[key])
    case _ => true
  }

  lemma {:induction false} RedactedHoldsNothingSensitive(lower: string -> string, value: Json)
    ensures NothingSensitive(lower, Redact(lower, value))
  {
    match value
    case Items(items) =>
      forall i | 0 <= i < |items| ensures NothingSensitive(lower, Redact(lower, items[i])) {
        RedactedHoldsNothingSensitive(lower, items[i]);
      }
    case Object(fields) =>
      forall key | key in fields ensures NothingSensitive(lower, Redact(lower, fields[key])) {
        RedactedHoldsNothingSensitive(lower, fields[key]);
      }
    case _ =>
  }

  /** Redaction changes exactly the values that hold something sensitive; in particular
      redacting twice is redacting once. */
  lemma {:induction false} RedactChangesExactly(lower: string -> string, value: Json)
    ensures Redact(lower, value) == value <==> NothingSensitive(lower, value)
  {
    match value
    case Items(items) =>
      forall i | 0 <= i < |items| ensures Redact(lower, items[i]) == items[i] <==> NothingSensitive(lower, items[i]) {
        RedactChangesExactly(lower, items[i]);
      }
      if Redact(lower, value) == value {
        forall i | 0 <= i < |items| ensures Redact(lower, items[i]) == items[i] {
          assert Redact(lower, value).items[i] == items[i];
        }
      }
    case Object(fields) =>
      forall key | key in fields
        ensures Redact(lower, fields[key]) == fields[key] <==> NothingSensitive(lower, fields[key])
      {
        RedactChangesExactly(lower, fields[key]);
      }
      if Redact(lower, value) == value {
        forall key | key in fields
          ensures fields[key] == if Sensitive(lower, key) then REDACTED else Redact(lower, fields[key])
        {
          assert Redact(lower, value).fields[key] == fields[key];
        }
      }
    case _ =>
  }

  /** What is looked up on a path without sensitive names is what it was, redacted. */
  lemma {:induction false} RedactKeepsOtherPaths(lower: string -> string, value: Json, parts: seq<string>)
    requires forall i :: 0 <= i < |parts| ==> !Sensitive(lower, parts[i])
    ensures Lookup(Redact(lower, value), parts) ==
      if Lookup(value, parts).Some? then Some(Redact(lower, Lookup(value, parts).value)) else None
    decreases |parts|
  {
    if parts != [] && value.Object? && parts[0] in value.fields {
      RedactKeepsOtherPaths(lower, value.fields[parts[0]], parts[1..]);
    }
  }

  // ---- Envelopes ------------------------------------------------------------

  /** JSON text as it arrives: none, a value, or text that is not JSON. */
  datatype JsonText = NoText | Value(json: Json) | NotJson

  datatype Envelope = Envelope(
    specVersion: string, id: string, source: string, kind: string,
    time: Option<Instant>, data: JsonText, rawData: JsonText)

  predicate Alphanumeric(c: char) {
    'A' <= c <= 'Z' || 'a' <= c <= 'z' || '0' <= c <= '9'
  }

  /** The identifier pattern: an alphanumeric and up to 255 more of those or ._:/- */
  predicate PortableId(s: string) {
    && 1 <= |s| <= 256 && Alphanumeric(s[0])
    && forall i :: 0 <= i < |s| ==> Alphanumeric(s[i]) || s[i] in "._:/-"
  }

  function Utf8Length(s: string): nat {
    if s == "" then 0
    else
      var width := if s[0] < '\U{80}' then 1 else if s[0] < '\U{800}' then 2 else if s[0] < '\U{10000}' then 3 else 4;
      width + Utf8Length(s[1..])
  }

  /** Stands for stableID("evt", source, id), a digest. */
  function RecordId(source: string, id: string): string {
    "evt_" + source + "\0" + id
  }

  predicate Acceptable(envelope: Envelope) {
    && (TrimSpace(envelope.specVersion) == "" || TrimSpace(envelope.specVersion) == "1.0")
    && PortableId(TrimSpace(envelope.id)) && PortableId(TrimSpace(envelope.source))
    && TrimSpace(envelope.kind) != "" && Utf8Length(TrimSpace(envelope.kind)) <= 256
    && !envelope.data.NotJson? && !envelope.rawData.NotJson?
  }

  function DataOf(envelope: Envelope): Json {
    if envelope.data.Value? then envelope.data.json else Object(map[])
  }

  function Normalize(lower: string -> string, envelope: Envelope, received: Instant): Option<NewEvent> {
    if !Acceptable(envelope) then None
    else
      var id, source := TrimSpace(envelope.id), TrimSpace(envelope.source);
      var raw := if envelope.rawData.Value? then envelope.rawData.json else DataOf(envelope);
      Some(NewEvent(
        RecordId(source, id), source, id, TrimSpace(envelope.kind),
        Some(if envelope.time.Some? then envelope.time.value else received), received,
        Some(Redact(lower, DataOf(envelope))), Raw(Redact(lower, raw)), EventIngested))
  }

  lemma TrimmedStays(s: string)
    ensures TrimSpace(TrimSpace(s)) == TrimSpace(s)
  {
    var t := TrimSpace(s);
    var start, end := TrimSpaceCuts(s);
    if t != "" {
      assert !IsSpace(t[0]) && !IsSpace(t[|t| - 1]);
    }
  }

  /** A normalised event is well formed, ingested and holds nothing sensitive, and it is
      stored under the trimmed source and id of its envelope. */
  lemma NormalizedEvent(lower: string -> string, envelope: Envelope, received: Instant)
    requires Acceptable(envelope)
    ensures Normalize(lower, envelope, received).Some?
    ensures var event := Normalize(lower, envelope, received).value;
      && WellFormed(event)
      && Stored(event).source == TrimSpace(envelope.source) && Stored(event).externalId == TrimSpace(envelope.id)
      && Stored(event).status == EventIngested
      && NothingSensitive(lower, Stored(event).data) && NothingSensitive(lower, Stored(event).raw)
      && Stored(event).kind == TrimSpace(envelope.kind) && Stored(event).receivedAt == Millis(received)
      && Stored(event).occurredAt == Millis(if envelope.time.Some? then envelope.time.value else received)
      && Stored(event).data ==
           Redact(lower, if envelope.data.Value? then envelope.data.json else Object(map[]))
      && Stored(event).raw ==
           (if envelope.rawData.Value? then Redact(lower, envelope.rawData.json) else Stored(event).data)
  {
    var id, source := TrimSpace(envelope.id), TrimSpace(envelope.source);
    TrimmedStays(envelope.id);
    TrimmedStays(envelope.source);
    TrimmedStays(envelope.kind);
    RecordIdNotBlank(source, id);
    RedactedHoldsNothingSensitive(lower, DataOf(envelope));
    if envelope.rawData.Value? {
      RedactedHoldsNothingSensitive(lower, envelope.rawData.json);
    }
  }

  lemma RecordIdNotBlank(source: string, id: string)
    ensures TrimSpace(RecordId(source, id)) != ""
  {
    var start, end := TrimSpaceCuts(RecordId(source, id));
    assert RecordId(source, id)[0] == 'e' && !IsSpace('e');
  }
}
