/**
 * The model-response normaliser of the Groq event extractor: body truncation,
 * the request sent to the chat endpoint, and the conversion of the parsed reply
 * into ordered event candidates. The HTTP exchange and `JSON.parse` are foreign:
 * their outcome arrives as a `Reply`, with None standing for a parse failure.
 */
module Groq {

  import opened Wrappers
  import opened JsValues
  import opened Events

  const MaxBodyLength: nat := 4000
  const TruncationMarker: string := "\n[...truncated]"
  const ChatModel: string := "llama3-8b-8192"
  const SystemInstruction: string := "You are an AI assistant that extracts events from email content."

  const DefaultStartTime: string := "09:00"
  const DefaultEndTime: string := "10:00"
  const UntitledEvent: string := "Untitled Event"

  /** The email part of the user message; the fixed wording around it is not reproduced. */
  datatype EmailPrompt = EmailPrompt(senderName: string, senderEmail: string, dateTime: string,
                                     subject: string, body: string)

  /** The chat request: model name, system message, user message, JSON response format. */
  datatype ChatRequest = ChatRequest(model: string, system: string, user: EmailPrompt)

  /** What the exchange with the endpoint produced: a transport failure, or the content and its parse. */
  datatype Reply = TransportFailure | Received(parsed: Option<Json>)

  // ---------------------------------------------------------------------------
  // Body truncation and the request

  /** A body longer than the limit becomes its first 4000 characters and a marker. */
  function TruncateBody(body: string): (r: string)
    ensures |body| <= MaxBodyLength ==> r == body
    ensures |body| > MaxBodyLength ==>
              |r| == MaxBodyLength + |TruncationMarker| &&
              r[..MaxBodyLength] == body[..MaxBodyLength] &&
              r[MaxBodyLength..] == TruncationMarker
  {
    if |body| > MaxBodyLength then body[..MaxBodyLength] + TruncationMarker else body
  }

  /** Truncating an already truncated body changes nothing. */
  lemma TruncateIdempotent(body: string)
    ensures TruncateBody(TruncateBody(body)) == TruncateBody(body)
  {
    var t := TruncateBody(body);
    if |body| > MaxBodyLength {
      assert |t| > MaxBodyLength;
      assert TruncateBody(t) == t[..MaxBodyLength] + TruncationMarker;
      assert t == t[..MaxBodyLength] + t[MaxBodyLength..];
    }
  }

  /** The request getEventSuggestions sends for an email. */
  function BuildRequest(email: EmailDetails): (q: ChatRequest)
    ensures q.model == ChatModel && q.system == SystemInstruction
    ensures q.user.senderName == email.senderName && q.user.senderEmail == email.senderEmail
    ensures q.user.dateTime == email.dateTime && q.user.subject == email.subject
    ensures q.user.body == TruncateBody(email.body)
    ensures |q.user.body| <= MaxBodyLength + |TruncationMarker|
  {
    ChatRequest(ChatModel, SystemInstruction,
                EmailPrompt(email.senderName, email.senderEmail, email.dateTime, email.subject,
                            TruncateBody(email.body)))
  }

  // ---------------------------------------------------------------------------
  // Field validation: /^\d{4}-\d{2}-\d{2}$/ and /^\d{2}:\d{2}$/

  predicate IsDigit(c: char) {
    '0' <= c <= '9'
  }

  predicate AllDigits(s: string) {
    forall i :: 0 <= i < |s| ==> IsDigit(s[i])
  }

  /** The date pattern: exactly four digits, '-', two digits, '-', two digits. */
  predicate DatePattern(s: string) {
    |s| == 10 && AllDigits(s[..4]) && s[4] == '-' && AllDigits(s[5..7]) && s[7] == '-' && AllDigits(s[8..])
  }

  /** The time pattern: exactly two digits, ':', two digits. */
  predicate TimePattern(s: string) {
    |s| == 5 && AllDigits(s[..2]) && s[2] == ':' && AllDigits(s[3..])
  }

  /** The dates accepted are exactly those written from a 4-, a 2- and a 2-digit group. */
  lemma DatePatternByParts(y: string, m: string, d: string)
    requires |y| == 4 && |m| == 2 && |d| == 2 && AllDigits(y) && AllDigits(m) && AllDigits(d)
    ensures DatePattern(y + "-" + m + "-" + d)
  {
    var s := y + "-" + m + "-" + d;
    assert s[..4] == y && s[5..7] == m && s[8..] == d;
  }

  lemma DatePatternSplits(s: string)
    requires DatePattern(s)
    ensures s == s[..4] + "-" + s[5..7] + "-" + s[8..]
  {
  }

  /** The times accepted are exactly those written from two 2-digit groups. */
  lemma TimePatternByParts(h: string, m: string)
    requires |h| == 2 && |m| == 2 && AllDigits(h) && AllDigits(m)
    ensures TimePattern(h + ":" + m)
  {
    var s := h + ":" + m;
    assert s[..2] == h && s[3..] == m;
  }

  lemma TimePatternSplits(s: string)
    requires TimePattern(s)
    ensures s == s[..2] + ":" + s[3..]
  {
  }

  /** `isValidDate(v)`: a string that matches the date pattern; any other value is refused. */
  predicate IsValidDate(v: Option<Json>): (b: bool)
    ensures b ==> v.Some? && v.value.JString? && |v.value.s| == 10
    ensures b ==> v.value.s == v.value.s[..4] + "-" + v.value.s[5..7] + "-" + v.value.s[8..]
    ensures v.None? || !v.value.JString? ==> !b
  {
    v.Some? && v.value.JString? && DatePattern(v.value.s)
  }

  /** `isValidTime(v)`: a string that matches the time pattern; any other value is refused. */
  predicate IsValidTime(v: Option<Json>): (b: bool)
    ensures b ==> v.Some? && v.value.JString? && |v.value.s| == 5
    ensures b ==> v.value.s == v.value.s[..2] + ":" + v.value.s[3..]
    ensures v.None? || !v.value.JString? ==> !b
  {
    v.Some? && v.value.JString? && TimePattern(v.value.s)
  }

  // ---------------------------------------------------------------------------
  // Normalisation of one element

  /** The instant text `${date}T${time}:00`. */
  function Compose(date: string, time: string): (t: string)
    ensures |t| == |date| + |time| + 4
    ensures t[..|date|] == date && t[|date|] == 'T'
    ensures t[|date| + 1..|date| + 1 + |time|] == time && t[|date| + 1 + |time|..] == ":00"
  {
    var t := date + "T" + time + ":00";
    assert t[..|date|] == date;
    assert t[|date| + 1..|date| + 1 + |time|] == time;
    assert t[|date| + 1 + |time|..] == ":00";
    t
  }

  /** The shape of a composed instant: a valid date, 'T', a valid time, ":00". */
  predicate InstantShape(t: string) {
    |t| == 19 && DatePattern(t[..10]) && t[10] == 'T' && TimePattern(t[11..16]) && t[16..] == ":00"
  }

  /** A composed instant splits back into its date and time. */
  lemma ComposeSplits(date: string, time: string)
    ensures |date| == 10 && |time| == 5 ==>
              |Compose(date, time)| == 19 &&
              Compose(date, time)[..10] == date && Compose(date, time)[10] == 'T' &&
              Compose(date, time)[11..16] == time && Compose(date, time)[16..] == ":00"
  {
    if |date| == 10 && |time| == 5 {
      var t := Compose(date, time);
      assert t[..10] == date && t[11..16] == time && t[16..] == ":00";
    }
  }

  /** The value of a field known to be a valid date or time. */
  function Text(v: Option<Json>): string
    requires v.Some? && v.value.JString?
  {
    v.value.s
  }

  /** A composed instant from a valid date and a valid time has the instant shape and splits back. */
  lemma ComposeShape(date: string, time: string)
    requires DatePattern(date) && TimePattern(time)
    ensures InstantShape(Compose(date, time))
    ensures Compose(date, time)[..10] == date && Compose(date, time)[11..16] == time
  {
    ComposeSplits(date, time);
  }

  /** The start date: the reply's `startDate` when it is a valid date, otherwise today. */
  function StartDate(e: Json, today: string): (d: string)
    ensures IsValidDate(Property(e, "startDate")) ==> d == Text(Property(e, "startDate"))
    ensures !IsValidDate(Property(e, "startDate")) ==> d == today
    ensures DatePattern(today) ==> DatePattern(d)
  {
    if IsValidDate(Property(e, "startDate")) then Text(Property(e, "startDate")) else today
  }

  /** The end date: the reply's `endDate` when it is a valid date, otherwise the start date. */
  function EndDate(e: Json, today: string): (d: string)
    ensures IsValidDate(Property(e, "endDate")) ==> d == Text(Property(e, "endDate"))
    ensures !IsValidDate(Property(e, "endDate")) ==> d == StartDate(e, today)
    ensures DatePattern(today) ==> DatePattern(d)
  {
    if IsValidDate(Property(e, "endDate")) then Text(Property(e, "endDate")) else StartDate(e, today)
  }

  /** The start time: the reply's `startTime` when it is a valid time, otherwise 09:00; always a valid time. */
  function StartTime(e: Json): (t: string)
    ensures IsValidTime(Property(e, "startTime")) ==> t == Text(Property(e, "startTime"))
    ensures !IsValidTime(Property(e, "startTime")) ==> t == DefaultStartTime
    ensures TimePattern(t)
  {
    TimePatternByParts("09", "00");
    assert "09" + ":" + "00" == DefaultStartTime;
    if IsValidTime(Property(e, "startTime")) then Text(Property(e, "startTime")) else DefaultStartTime
  }

  /** The end time: the reply's `endTime` when it is a valid time, otherwise 10:00; always a valid time. */
  function EndTime(e: Json): (t: string)
    ensures IsValidTime(Property(e, "endTime")) ==> t == Text(Property(e, "endTime"))
    ensures !IsValidTime(Property(e, "endTime")) ==> t == DefaultEndTime
    ensures TimePattern(t)
  {
    TimePatternByParts("10", "00");
    assert "10" + ":" + "00" == DefaultEndTime;
    if IsValidTime(Property(e, "endTime")) then Text(Property(e, "endTime")) else DefaultEndTime
  }

  /** The callback of `events.map` for an element that is not null. */
  function Normalise(e: Json, today: string): (ev: Event)
    ensures ev.status == Suggested && ev.id.None? && ev.mailLink.None?
    ensures ev.startDateTime == Some(Compose(StartDate(e, today), StartTime(e)))
    ensures ev.endDateTime == Some(Compose(EndDate(e, today), EndTime(e)))
    ensures Truthy(ev.title)
    ensures Property(e, "title").Some? && Truthy(Property(e, "title").value) ==> ev.title == Property(e, "title").value
    ensures Property(e, "title").None? || !Truthy(Property(e, "title").value) ==> ev.title == JString(UntitledEvent)
    ensures Property(e, "description").Some? && Truthy(Property(e, "description").value) ==>
              ev.description == Property(e, "description").value
    ensures Property(e, "description").None? || !Truthy(Property(e, "description").value) ==> ev.description == JString("")
    ensures Property(e, "location").Some? && Truthy(Property(e, "location").value) ==>
              ev.location == Property(e, "location").value
    ensures Property(e, "location").None? || !Truthy(Property(e, "location").value) ==> ev.location == JString("")
  {
    Event(None,
          OrElse(Property(e, "title"), JString(UntitledEvent)),
          OrElse(Property(e, "description"), JString("")),
          Some(Compose(StartDate(e, today), StartTime(e))),
          Some(Compose(EndDate(e, today), EndTime(e))),
          OrElse(Property(e, "location"), JString("")),
          Suggested,
          None)
  }

  /**
   * When `today` is a date, both instants of a candidate have the composed
   * shape, and their date and time parts are the chosen fields or the defaults.
   */
  lemma NormaliseInstants(e: Json, today: string)
    requires DatePattern(today)
    ensures var ev := Normalise(e, today);
            var start, end := ev.startDateTime.value, ev.endDateTime.value;
            && InstantShape(start) && InstantShape(end)
            && start[..10] == (if IsValidDate(Property(e, "startDate")) then Text(Property(e, "startDate")) else today)
            && end[..10] == (if IsValidDate(Property(e, "endDate")) then Text(Property(e, "endDate")) else start[..10])
            && start[11..16] == (if IsValidTime(Property(e, "startTime")) then Text(Property(e, "startTime")) else DefaultStartTime)
            && end[11..16] == (if IsValidTime(Property(e, "endTime")) then Text(Property(e, "endTime")) else DefaultEndTime)
  {
    ComposeShape(StartDate(e, today), StartTime(e));
    ComposeShape(EndDate(e, today), EndTime(e));
  }

  // ---------------------------------------------------------------------------
  // The reply as a whole

  /**
   * The list `events.map` runs over, or None where evaluation throws: an array is
   * used as is; `parsed.events || []` on anything else, where reading a property
   * of null throws and a truthy non-array has no callable `map`.
   */
  function EventList(parsed: Json): (r: Option<seq<Json>>)
    ensures parsed.JArray? ==> r == Some(parsed.items)
    ensures parsed.JNull? ==> r.None?
  {
    match parsed
    case JArray(items) => Some(items)
    case JNull => None
    case JObject(fields) =>
      if "events" in fields && Truthy(fields["events"]) then
        (if fields["events"].JArray? then Some(fields["events"].items) else None)
      else Some([])
    case _ => Some([])
  }

  /** `parseResponse`: every failure inside the try block yields no events. */
  function ParseResponse(parsed: Option<Json>, today: string): (r: seq<Event>)
    ensures parsed.None? ==> r == []
    ensures forall i :: 0 <= i < |r| ==> r[i].status == Suggested
    ensures r != [] ==> parsed.Some? && EventList(parsed.value).Some? &&
                        |r| == |EventList(parsed.value).value| &&
                        forall i :: 0 <= i < |r| ==> r[i] == Normalise(EventList(parsed.value).value[i], today)
  {
    match parsed
    case None => []
    case Some(j) =>
      match EventList(j)
      case None => []
      case Some(items) =>
        // reading a field of a null element throws
        if JNull in items then []
        else seq(|items|, i requires 0 <= i < |items| => Normalise(items[i], today))
  }

  /** A top-level array: one candidate per element, in order, unless an element is null. */
  lemma ArrayReply(items: seq<Json>, today: string)
    ensures JNull in items ==> ParseResponse(Some(JArray(items)), today) == []
    ensures JNull !in items ==>
              var r := ParseResponse(Some(JArray(items)), today);
              |r| == |items| && forall i :: 0 <= i < |items| ==> r[i] == Normalise(items[i], today)
  {
  }

  /** An object contributes its `events` array, and nothing when that field is missing, falsy or not an array. */
  lemma ObjectReply(fields: map<string, Json>, today: string)
    ensures ParseResponse(Some(JObject(fields)), today) ==
            if "events" in fields && fields["events"].JArray? then ParseResponse(Some(fields["events"]), today)
            else []
  {
    var list := EventList(JObject(fields));
    if "events" in fields && fields["events"].JArray? {
      assert list == EventList(fields["events"]);
    } else {
      assert list.None? || list == Some([]);
    }
  }

  /** Null, a boolean, a number or a string at the top level yields no events. */
  lemma ScalarReply(j: Json, today: string)
    requires !j.JArray? && !j.JObject?
    ensures ParseResponse(Some(j), today) == []
  {
  }

  /** When `today` is a date, every candidate's instants have the composed shape. */
  lemma {:induction false} InstantsWellFormed(parsed: Option<Json>, today: string)
    requires DatePattern(today)
    ensures forall ev :: ev in ParseResponse(parsed, today) ==>
              InstantShape(ev.startDateTime.value) && InstantShape(ev.endDateTime.value)
  {
    var r := ParseResponse(parsed, today);
    forall ev | ev in r
      ensures InstantShape(ev.startDateTime.value) && InstantShape(ev.endDateTime.value)
    {
      var i :| 0 <= i < |r| && r[i] == ev;
      var items := EventList(parsed.value).value;
      NormaliseInstants(items[i], today);
    }
  }

  /** `getEventSuggestions`: never throws; a transport failure yields no events. */
  function GetEventSuggestions(email: EmailDetails, exchange: ChatRequest -> Reply, today: string): (r: seq<Event>)
    ensures exchange(BuildRequest(email)).TransportFailure? ==> r == []
    ensures exchange(BuildRequest(email)).Received? ==>
              r == ParseResponse(exchange(BuildRequest(email)).parsed, today)
  {
    match exchange(BuildRequest(email))
    case TransportFailure => []
    case Received(parsed) => ParseResponse(parsed, today)
  }

  // ---------------------------------------------------------------------------
  // The replies of the unit tests

  /** The element of the unit test's well-formed reply. */
  function MeetingWithJohn(): Json {
    JObject(map[
      "title" := JString("Meeting with John"),
      "description" := JString("Conference room meeting"),
      "startDate" := JString("2023-11-01"),
      "startTime" := JString("14:00"),
      "endDate" := JString("2023-11-01"),
      "endTime" := JString("15:00"),
      "location" := JString("Conference room")])
  }

  lemma MeetingDate()
    ensures DatePattern("2023-11-01")
  {
    DatePatternByParts("2023", "11", "01");
    assert "2023" + "-" + "11" + "-" + "01" == "2023-11-01";
  }

  lemma MeetingTimes()
    ensures TimePattern("14:00") && TimePattern("15:00")
  {
    TimePatternByParts("14", "00");
    assert "14" + ":" + "00" == "14:00";
    TimePatternByParts("15", "00");
    assert "15" + ":" + "00" == "15:00";
  }

  lemma MeetingInstants()
    ensures Compose("2023-11-01", "14:00") == "2023-11-01T14:00:00"
    ensures Compose("2023-11-01", "15:00") == "2023-11-01T15:00:00"
  {
    assert "2023-11-01" + "T" + "14:00" + ":00" == "2023-11-01T14:00:00";
    assert "2023-11-01" + "T" + "15:00" + ":00" == "2023-11-01T15:00:00";
  }

  lemma MeetingFieldsValid()
    ensures var e := MeetingWithJohn();
            && IsValidDate(Property(e, "startDate")) && Text(Property(e, "startDate")) == "2023-11-01"
            && IsValidDate(Property(e, "endDate")) && Text(Property(e, "endDate")) == "2023-11-01"
            && IsValidTime(Property(e, "startTime")) && Text(Property(e, "startTime")) == "14:00"
            && IsValidTime(Property(e, "endTime")) && Text(Property(e, "endTime")) == "15:00"
            && Compose("2023-11-01", "14:00") == "2023-11-01T14:00:00"
            && Compose("2023-11-01", "15:00") == "2023-11-01T15:00:00"
  {
    MeetingDate();
    MeetingTimes();
    MeetingInstants();
  }

  /** The test meeting normalises to the candidate with its own texts and instants. */
  lemma MeetingNormalised(today: string)
    ensures Normalise(MeetingWithJohn(), today) ==
            Event(None, JString("Meeting with John"), JString("Conference room meeting"),
                  Some("2023-11-01T14:00:00"), Some("2023-11-01T15:00:00"),
                  JString("Conference room"), Suggested, None)
  {
    var e := MeetingWithJohn();
    MeetingFieldsValid();
    assert StartDate(e, today) == "2023-11-01" && EndDate(e, today) == "2023-11-01";
    assert StartTime(e) == "14:00" && EndTime(e) == "15:00";
  }

  /** One well-formed event gives one candidate carrying its title, location and instants. */
  lemma WellFormedReplyScenario(today: string)
    ensures var r := ParseResponse(Some(JArray([MeetingWithJohn()])), today);
            |r| == 1 &&
            r[0].title == JString("Meeting with John") &&
            r[0].location == JString("Conference room") &&
            r[0].startDateTime == Some("2023-11-01T14:00:00") &&
            r[0].endDateTime == Some("2023-11-01T15:00:00")
  {
    var e := MeetingWithJohn();
    MeetingNormalised(today);
    assert JNull !in [e];
    ArrayReply([e], today);
  }

  /** The reply `[]` and a failed request both give no events. */
  lemma EmptyReplyScenario(email: EmailDetails, today: string)
    ensures ParseResponse(Some(JArray([])), today) == []
    ensures GetEventSuggestions(email, (q: ChatRequest) => TransportFailure, today) == []
  {
  }
}
