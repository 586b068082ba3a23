# Gmail task and event extractor: a verified model of its core

The extension reads an opened Gmail message, asks a language model for
calendar events, and shows them one at a time in a review sidebar, where each
can be approved or rejected. Every decision is logged to a capped training
dataset and mirrored into browser storage. The repository also contains a
bullet-list parser (`EmailParser`, for items starting `*` or `1.`) and a task
panel (`SideBar`). No code in the repository creates the parser or renders the
panel, and nothing connects the two.

This project models five parts of that system in Dafny and proves what each
promises:

- **`Dataset`** (`dataset.dfy`): the `DatasetService` class. It holds the entry
  list and its configuration, and writes through a `KeyValueStore` class.
  - Saving appends one entry and caps the list to the most recent
    `maxEntries`.
  - Statistics count entries by action, and filtering selects entries by
    action and inclusive timestamp bounds.
  - Clearing, loading, export metadata and the configuration report are also
    modelled.
- **`Groq`** (`groq.dfy`): how the event extractor turns a model reply into
  event candidates.
  - The body sent to the model is truncated first.
  - A top-level array is taken as is; an object contributes its `events`
    field.
  - Each field is checked against the date pattern `yyyy-MM-dd` or the time
    pattern `HH:mm`; the defaults are today, the start date, 09:00 and 10:00.
  - A missing title becomes "Untitled Event", and every failure yields no
    events.
- **`EventReview`** (`event_sidebar.dfy`): the `EventSidebar` component as a
  class over its hook state: active index, edited candidate, `loading` and the
  error message.
  - Approve and reject are split at their `await`. The click does the first
    half and leaves a pending callback. `CallbackSettled` does the second half,
    using the index and list that the handler's closure captured.
  - The effect that clamps the index when the list changes is
    `SyncWithEvents`; the previous/next guards are modelled as well.
- **`EmailParser`** (`email_parser.dfy`):
  - `ParseEmailContent` is the `exec` loop over the global regular expression
    `/(?:\*\s*|\d+\.\s*)(.*?)(?=\n|$)/g`, proved against the specification
    function `Tasks`.
  - `Tasks` is defined by an exact model of JavaScript's matching order:
    leftmost match, `\s*` greedy with give-back, `.*?` lazy, `$` at the end of
    the input.
  - Each match's capture is trimmed with the ECMAScript whitespace set.
    `ExtractTasks` and `ExtractRelevantInfo` wrap the loop.
- **`TaskSidebar`** (`task_sidebar.dfy`): the task panel's handlers are pure
  transformations of the task list and of the new-task form flag:
  - add: append the new task;
  - update: merge into every task with that id;
  - delete: filter out every task with that id.

  A spread is modelled as a right-biased map union.

Shared modules:

- `js_values.dfy` models values and truthiness as they come out of
  `JSON.parse`.
- `events.dfy` holds the event and email records.
- `seqs.dfy` defines `Array.prototype.filter` as `Seqs.Filter`, with its lemmas.
- `wrappers.dfy` defines `Option`.

Parameters stand in for what the model cannot compute:

- **Clock readings:** `now`, `savedAt`, `today`, and the two instants of the
  sidebar's blank template.
- **The instant-to-ISO conversion:** `toIso`.
- **The chat exchange and `JSON.parse`:** `exchange` returns a `Reply`.
- **Outcomes:** whether a store read or write succeeds, and whether a parent
  callback resolves.

## Model

| member | source | states |
|---|---|---|
| `JsValues.Property` | src/services/ai/groq-service.ts:110-119 | A property read yields the field of an object when present and undefined (None) for every other value. |
| `JsValues.Truthy` | src/services/ai/groq-service.ts:115-119 | A value is falsy exactly when it is null, false, 0 or the empty string; undefined (a missing property) is handled by `OrElse`. |
| `JsValues.OrElse` | src/services/ai/groq-service.ts:115-119 | The fallback operator gives `x` exactly when `x` is present and truthy, the fallback otherwise. |
| `Dataset.LexLeReflexive` | src/services/dataset/dataset.service.ts:198-202 | String `<=` holds between a timestamp and itself. |
| `Dataset.LexLeAntisymmetric` | src/services/dataset/dataset.service.ts:198-202 | Two timestamps each `<=` the other are equal. |
| `Dataset.LexLeTransitive` | src/services/dataset/dataset.service.ts:198-202 | String `<=` is transitive. |
| `Dataset.LexLeTotal` | src/services/dataset/dataset.service.ts:198-202 | Any two timestamps are comparable. |
| `Dataset.Setting` | src/services/dataset/dataset.service.ts:16-21 | A default survives an absent override. An override given as `undefined` replaces the default with `undefined`, and a given value replaces it. |
| `Dataset.MergeConfig` | src/services/dataset/dataset.service.ts:15-22 | With no overrides the configuration is maxEntries 1000, the default storage key and autoExport false. Each given field overrides its default. |
| `Dataset.SliceFrom` | src/services/dataset/dataset.service.ts:141 | `slice(start)`: a non-negative start drops that many leading elements. A negative start keeps that many trailing elements, or everything when it exceeds the length. |
| `Dataset.Capped` | src/services/dataset/dataset.service.ts:139-142 | Without a truthy cap the list is unchanged. With a positive cap N it is the last min(length, N) entries in their order. With a negative cap -M it drops the first M entries. |
| `Dataset.AppendedIsNewest` | src/services/dataset/dataset.service.ts:136-142 | After push and cap (cap not negative), the new entry is last. The length is within a truthy cap, and the entries before it are the most recent old ones, in order. |
| `Dataset.CapKeepsLastN` | src/services/dataset/dataset.service.ts:136-142 | One cap of N > 0 over a list whose last N or more elements are new entries keeps exactly the last N of them. |
| `Dataset.CappedAbsorbs` | src/services/dataset/dataset.service.ts:139-142 | With a positive cap, capping before further pushes and capping once after them give the same list. |
| `Dataset.SavesSnoc` | src/services/dataset/dataset.service.ts:136-142 | The fold of push-then-cap over a run of saves takes one more save by one more push and cap, as each addEntry call does. |
| `Dataset.SavesAreOneCap` | src/services/dataset/dataset.service.ts:136-142 | Under a positive cap, a non-empty run of saves, each capped on its own, equals one cap over the old list and all new entries. |
| `Dataset.SavesKeepLastN` | src/services/dataset/dataset.service.ts:136-142 | With cap N > 0, N or more consecutive saves, each capped, leave exactly the last N saved, in order. |
| `Dataset.ActionsPartition` | src/services/dataset/dataset.service.ts:51-52 | The approved count and the rejected count add up to the number of entries. |
| `Dataset.ActionFilterIsCriterion` | src/services/dataset/dataset.service.ts:51-52 | getStats' count filter selects the same entries as getAllEntries with only that action. |
| `Dataset.ApplyFilter` | src/services/dataset/dataset.service.ts:191-205 | The filtered list is no longer than the entries and holds only stored entries with the requested action; with no filter it is all entries. |
| `Dataset.ApplyFilterIsConjunction` | src/services/dataset/dataset.service.ts:191-205 | The three successive filters equal one filter by the conjunction of the supplied criteria. |
| `Dataset.SingleInstantWindow` | src/services/dataset/dataset.service.ts:197-203 | With fromDate = toDate = t, an entry is returned iff it is stored, has the requested action, and has timestamp exactly t. |
| `Dataset.IsoOrEmpty` | src/services/dataset/dataset.service.ts:121-122 | An absent instant is stored as '' and a present one as its ISO text. |
| `Dataset.Serialise` | src/services/dataset/dataset.service.ts:119-123 | A stored event keeps every field of the event except the two instants, which become ISO text or ''. |
| `Dataset.KeyValueStore.SetItem` | src/utils/storage.ts:13-26 | A successful write binds the key to the value; a failed write leaves the store unchanged. |
| `Dataset.KeyValueStore.GetItem` | src/utils/storage.ts:31-45 | The read yields the stored value iff it succeeds and the key is present; otherwise null. |
| `Dataset.DatasetService.constructor` | src/services/dataset/dataset.service.ts:12-22 | The service starts with no entries and the merged configuration. |
| `Dataset.DatasetService.Initialize` | src/services/dataset/dataset.service.ts:27-29 | Same as LoadFromStorage. |
| `Dataset.DatasetService.LoadFromStorage` | src/services/dataset/dataset.service.ts:170-181 | A stored snapshot replaces the entries. A stored value without `entries` yields []. A missing key or a failed read leaves the entries as they were. |
| `Dataset.DatasetService.CreateDatasetEntry` | src/services/dataset/dataset.service.ts:113-134 | Subject, body and date are copied verbatim, and the sender is `name <email>`. Action and clock reading are recorded, with one serialised event per event, in order. |
| `Dataset.DatasetService.SaveToStorage` | src/services/dataset/dataset.service.ts:158-168 | A successful write stores `{entries, lastSaved}` under the configured key; a failure is swallowed and changes nothing. |
| `Dataset.DatasetService.AddEntry` | src/services/dataset/dataset.service.ts:136-144 | The new list is the capped old list plus the entry. After a successful write the stored snapshot equals the in-memory list. A failed write keeps the in-memory update. |
| `Dataset.DatasetService.SaveApprovedEvent` | src/services/dataset/dataset.service.ts:34-37 | Records one entry with action 'approved' holding exactly the serialised event. It is the last entry unless maxEntries is negative. |
| `Dataset.DatasetService.SaveRejectedEvent` | src/services/dataset/dataset.service.ts:42-45 | Records one entry with action 'rejected' and no events, whatever event is passed. It is the last entry unless maxEntries is negative. |
| `Dataset.DatasetService.ClearDataset` | src/services/dataset/dataset.service.ts:100-104 | No entries remain, and the empty list is persisted when the write succeeds. |
| `Dataset.DatasetService.GetEntries` | src/services/dataset/dataset.service.ts:109-111 | An element-wise copy of the entries. |
| `Dataset.DatasetService.GetAllEntries` | src/services/dataset/dataset.service.ts:186-206 | Exactly the stored entries meeting every supplied criterion, in original order. No filter returns all entries, and reading never changes the list. |
| `Dataset.DatasetService.GetStats` | src/services/dataset/dataset.service.ts:50-62 | total = length. approved and rejected are the sizes of getAllEntries for that action and sum to total. lastUpdated is the last entry's timestamp, or the clock when empty. |
| `Dataset.DatasetService.ExportToJson` | src/services/dataset/dataset.service.ts:211-222 | The export document carries the entries, the export clock reading, totalEntries = length, and the stats computed with their own clock reading. |
| `Dataset.DatasetService.GetConfig` | src/services/dataset/dataset.service.ts:227-237 | maxEntries is never 0 (a falsy cap reports 1000), the storage key is passed through, and autoSave holds iff autoExport is true. |
| `Groq.TruncateBody` | src/services/ai/groq-service.ts:13-17 | A body of at most 4000 characters is unchanged. A longer one becomes its first 4000 characters followed by "\n[...truncated]". |
| `Groq.TruncateIdempotent` | src/services/ai/groq-service.ts:13-17 | A property of `TruncateBody` only, since the code truncates once: truncating twice is truncating once. |
| `Groq.BuildRequest` | src/services/ai/groq-service.ts:19-73 | The request names the model and the system instruction, and carries the sender, date, subject and truncated body. |
| `Groq.IsValidDate` | src/services/ai/groq-service.ts:105-107 | Only a string field can pass; a passing one has length 10 and is its parts joined by '-' at positions 4 and 7. |
| `Groq.IsValidTime` | src/services/ai/groq-service.ts:100-102 | Only a string field can pass; a passing one has length 5 and is its parts joined by ':' at position 2. |
| `Groq.Compose` | src/services/ai/groq-service.ts:117-118 | The instant text is the date, then 'T', then the time, then ":00", and nothing more. |
| `Groq.DatePatternByParts` | src/services/ai/groq-service.ts:105-107 | Four digits, '-', two digits, '-', two digits always match the date pattern. |
| `Groq.DatePatternSplits` | src/services/ai/groq-service.ts:105-107 | A matching date is exactly its three digit groups joined by '-'. |
| `Groq.TimePatternByParts` | src/services/ai/groq-service.ts:100-102 | Two digits, ':' and two digits always match the time pattern. |
| `Groq.TimePatternSplits` | src/services/ai/groq-service.ts:100-102 | A matching time is exactly its two digit groups joined by ':'. |
| `Groq.ComposeSplits` | src/services/ai/groq-service.ts:117-118 | `${date}T${time}:00` splits back into the date, 'T', the time and ":00". |
| `Groq.ComposeShape` | src/services/ai/groq-service.ts:117-118 | For a valid date and time the composed instant has the instant shape and gives them back. |
| `Groq.StartDate` | src/services/ai/groq-service.ts:110 | The reply's startDate when valid, otherwise today; a date whenever today is. |
| `Groq.EndDate` | src/services/ai/groq-service.ts:111 | The reply's endDate when valid, otherwise the chosen start date; a date whenever today is. |
| `Groq.StartTime` | src/services/ai/groq-service.ts:112 | The reply's startTime when valid, otherwise "09:00"; always a valid time. |
| `Groq.EndTime` | src/services/ai/groq-service.ts:113 | The reply's endTime when valid, otherwise "10:00"; always a valid time. |
| `Groq.Normalise` | src/services/ai/groq-service.ts:109-122 | Status is suggested and the instants are composed from the chosen date and time. A truthy title passes through and a falsy one becomes "Untitled Event". A falsy description or location becomes "", and a truthy one comes from the reply. |
| `Groq.NormaliseInstants` | src/services/ai/groq-service.ts:110-118 | When today is a date, both instants have the shape date 'T' time ":00". Their parts are the valid fields or the defaults. |
| `Groq.EventList` | src/services/ai/groq-service.ts:92-94 | An array is used as is. Reading `events` from null throws (None). |
| `Groq.ParseResponse` | src/services/ai/groq-service.ts:85-127 | A parse failure gives []. Every candidate is suggested. A non-empty result has one normalised candidate per element of the event list, in order. |
| `Groq.ArrayReply` | src/services/ai/groq-service.ts:92-109 | An array reply without null elements gives one candidate per element in order; a null element makes the whole result []. |
| `Groq.ObjectReply` | src/services/ai/groq-service.ts:94 | An object reply gives what its `events` array gives, and [] when that field is missing, falsy or not an array. |
| `Groq.ScalarReply` | src/services/ai/groq-service.ts:89-94 | Null, a boolean, a number or a string at the top level gives []. |
| `Groq.InstantsWellFormed` | src/services/ai/groq-service.ts:109-122 | When today is a date, every candidate of every reply has well-shaped start and end instants. |
| `Groq.GetEventSuggestions` | src/services/ai/groq-service.ts:11-60 | A transport failure gives []; otherwise the result is parseResponse of the reply. |
| `Groq.MeetingFieldsValid` | tests/unit/services/ai/groq-service.spec.ts:29-39 | The meeting reply's four fields pass validation and compose to 2023-11-01T14:00:00 and 2023-11-01T15:00:00. |
| `Groq.MeetingNormalised` | tests/unit/services/ai/groq-service.spec.ts:29-39 | The meeting element normalises to the suggested event with its title, description and location and the instants 2023-11-01T14:00:00 and 2023-11-01T15:00:00. |
| `Groq.WellFormedReplyScenario` | tests/unit/services/ai/groq-service.spec.ts:51-60 | The one-meeting reply gives one candidate with that title, location and those instants. |
| `Groq.EmptyReplyScenario` | tests/unit/services/ai/groq-service.spec.ts:66-83 | The reply `[]` and a failed request both give no events. |
| `EmailParser.SpaceRun` | src/services/email/email-parser.ts:21 | The greedy `\s*` run: every character at the start is whitespace, and the one after it is not. |
| `EmailParser.DigitRun` | src/services/email/email-parser.ts:21 | The maximal `\d` run: every character at the start is a digit, and the one after it is not. |
| `EmailParser.LineEnd` | src/services/email/email-parser.ts:21 | The first line terminator at or after a position, or the end: where `.` stops. |
| `EmailParser.CaptureStart` | src/services/email/email-parser.ts:21 | With `\s*` giving back one character at a time, the longest whitespace prefix after which the lookahead can succeed: the lookahead fails after every longer one. None iff it succeeds after none of them. |
| `EmailParser.MarkerEnd` | src/services/email/email-parser.ts:21 | The position after '*', or after a digit run and its '.'. None exactly when neither starts here. |
| `EmailParser.MatchAt` | src/services/email/email-parser.ts:21 | A match attempt at p consumes a marker, then the greediest `\s*` prefix after which the lookahead holds. Its capture runs up to the first line terminator. It fails iff there is no marker or the lookahead fails after every prefix. |
| `EmailParser.Exec` | src/services/email/email-parser.ts:24 | `exec` from lastIndex: the leftmost position where an attempt succeeds, or null iff none from there does. |
| `EmailParser.MatchesFrom` | src/services/email/email-parser.ts:24-26 | The successive `exec` results lie within the text and at or after the starting index. |
| `EmailParser.Trim` | src/services/email/email-parser.ts:25 | `trim()` is the slice between leading and trailing whitespace. What it removes is whitespace, and the result neither starts nor ends with whitespace. |
| `EmailParser.TrimStartIndex` | src/services/email/email-parser.ts:25 | The first position from i that is not whitespace; everything skipped is whitespace. |
| `EmailParser.TrimEndIndex` | src/services/email/email-parser.ts:25 | The end once trailing whitespace is dropped; everything dropped is whitespace, and the character before the end is not. |
| `EmailParser.TaskOf` | src/services/email/email-parser.ts:25 | `match[1].trim()`: trimmed and no longer than the capture. |
| `EmailParser.TasksOf` | src/services/email/email-parser.ts:24-26 | One task per match, the i-th the trimmed capture of the i-th match. |
| `EmailParser.Tasks` | src/services/email/email-parser.ts:19-29 | One task per match of the scan from index 0, the i-th the trimmed capture of the i-th match. |
| `EmailParser.TasksOfAppend` | src/services/email/email-parser.ts:24-26 | Tasks of two runs of matches concatenate. |
| `EmailParser.ParseEmailContent` | src/services/email/email-parser.ts:19-29 | The `exec` loop returns the trimmed capture of every match of the scan, in order. |
| `EmailParser.ExtractTasks` | src/services/email/email-parser.ts:4-6 | Resolves to exactly parseEmailContent of its input. |
| `EmailParser.ExtractRelevantInfo` | src/services/email/email-parser.ts:31-36 | The subject unchanged and the tasks of the body. |
| `EmailParser.MatchesFirst` | src/services/email/email-parser.ts:24 | The scan is empty iff the first `exec` fails, and otherwise starts with its result. |
| `EmailParser.MatchesResume` | src/services/email/email-parser.ts:24 | Each next match is the `exec` from the end of the previous one. |
| `EmailParser.MatchesAreMatches` | src/services/email/email-parser.ts:21-24 | Every element of the scan is a successful attempt at its own position. |
| `EmailParser.MatchesOrdered` | src/services/email/email-parser.ts:24-26 | Matches do not overlap and come in left-to-right order. |
| `EmailParser.MatchStartsAtMarker` | src/services/email/email-parser.ts:21 | A match starts at '*' or at a digit run followed by '.'. Only whitespace, possibly newlines, lies between that and the capture. |
| `EmailParser.TrimKeepsLines` | src/services/email/email-parser.ts:25 | Trimming cannot introduce a line terminator. |
| `EmailParser.TaskOfShape` | src/services/email/email-parser.ts:21-25 | One task has no line terminator and no leading or trailing whitespace. |
| `EmailParser.TasksShape` | src/services/email/email-parser.ts:21-25 | The same for every task of a run of matches. |
| `EmailParser.TaskShape` | src/services/email/email-parser.ts:19-29 | No returned task contains a line terminator, and each is trimmed. |
| `EmailParser.MarkersSplit` | src/services/email/email-parser.ts:21 | Marker counts over adjacent ranges add up. |
| `EmailParser.MatchHasMarker` | src/services/email/email-parser.ts:21 | Every match consumes at least one '*' or '.'. |
| `EmailParser.MatchCountBound` | src/services/email/email-parser.ts:24-26 | The number of matches from an index is at most the number of '*' and '.' after it. |
| `EmailParser.TasksOfLength` | src/services/email/email-parser.ts:24-26 | One task per match. |
| `EmailParser.TaskCountBound` | src/services/email/email-parser.ts:19-29 | The result is no longer than the number of '*' plus '.' characters. |
| `EmailParser.NoMarkerAt` | src/services/email/email-parser.ts:21 | Without '*' and without a digit followed by '.', no attempt gets past the marker. |
| `EmailParser.NoBulletNoTasks` | src/services/email/email-parser.ts:19-29 | Text with no '*' and no digit immediately followed by '.' yields []. |
| `EmailParser.BareBulletTakesNextLine` | src/services/email/email-parser.ts:21 | "*\nfoo" yields ["foo"]: `\s*` crosses the newline. |
| `EmailParser.CarriageReturnDefeatsBullet` | src/services/email/email-parser.ts:21 | "* a\r\n" yields []: `.` stops at '\r', where the lookahead fails. |
| `EmailParser.NumberedAndStarredItems` | src/services/email/email-parser.ts:19-29 | "1. Buy\n* Call " yields ["Buy", "Call"]. |
| `EventReview.BlankEvent` | src/ui/components/events/EventSidebar.tsx:9-16 | The blank template has falsy texts, status suggested and the load-time instants, so it cannot be approved unedited. |
| `EventReview.ClampIndex` | src/ui/components/events/EventSidebar.tsx:105-118 | For a non-empty list the index is min(index, length-1), in range; for an empty list it is 0. |
| `EventReview.NextOrClose` | src/ui/components/events/EventSidebar.tsx:56-63 | It moves to index+1 exactly when index < length-1; otherwise the sidebar closes. |
| `EventReview.EventSidebar.constructor` | src/ui/components/events/EventSidebar.tsx:9-35 | The blank template is BlankEvent of the load-time instants. Index 0, the first candidate or that blank in add mode; not loading, no error, no callback made. |
| `EventReview.EventSidebar.SyncWithEvents` | src/ui/components/events/EventSidebar.tsx:103-119 | The effect clamps the index and reloads the candidate at it, or the blank template for an empty list; nothing else changes. |
| `EventReview.EventSidebar.EventsChanged` | src/ui/components/events/EventSidebar.tsx:103-119 | A new list from the parent is taken; the index is clamped to it and its candidate loaded. |
| `EventReview.EventSidebar.Edit` | src/ui/components/events/EventSidebar.tsx:144 | A form edit replaces the edited candidate only. |
| `EventReview.EventSidebar.HandleNextEvent` | src/ui/components/events/EventSidebar.tsx:38-43 | When "next" is shown (more than one candidate) and enabled (not at the last, EventNavigation.tsx line 16), one step forward and that candidate is loaded; otherwise nothing changes. |
| `EventReview.EventSidebar.HandlePrevEvent` | src/ui/components/events/EventSidebar.tsx:44-49 | When "previous" is shown (more than one candidate) and enabled (not at the first, EventNavigation.tsx line 15), one step back and that candidate is loaded; otherwise nothing changes. |
| `EventReview.EventSidebar.HandleClose` | src/ui/components/events/EventSidebar.tsx:97-100 | The form is reset to the blank template and onClose is called once. |
| `EventReview.EventSidebar.HandleApprove` | src/ui/components/events/EventSidebar.tsx:66-75 | A falsy title sets the title error and makes no callback, leaving the index and loading. Otherwise it shows loading and hands the candidate, marked confirmed, to onEventApprove. |
| `EventReview.EventSidebar.HandleReject` | src/ui/components/events/EventSidebar.tsx:84-88 | Without a title check: shows loading, clears the error, and hands the candidate, marked rejected, to onEventReject. |
| `EventReview.EventSidebar.GoToNextOrClose` | src/ui/components/events/EventSidebar.tsx:56-63 | With the captured index and list: it moves to index+1 and loads that candidate (then the effect runs), or calls onClose and leaves the index. |
| `EventReview.EventSidebar.CallbackSettled` | src/ui/components/events/EventSidebar.tsx:73-93 | Loading ends either way. A failure shows that decision's error and moves nothing. A success works from the index and list captured at the click: it closes, or sets the index to captured+1 and loads the captured list's candidate there. If that changes the index, the effect then clamps it to the current list and reloads from it. |
| `EventReview.ApproveBlankRefused` | src/ui/components/events/EventSidebar.tsx:66-71 | Approving on a fresh sidebar with no candidates (add mode) is refused with the title error; nothing is loading and no callback is made. |
| `TaskSidebar.Initial` | src/ui/components/sidebar.tsx:5-7 | The given tasks, form hidden. |
| `TaskSidebar.NewTask` | src/ui/components/sidebar.tsx:11-14 | The new task has every field of taskData. Its id is the clock value unless taskData supplies its own. |
| `TaskSidebar.Merge` | src/ui/components/sidebar.tsx:28 | `{...task, ...updatedData}`: updated fields win, and the other fields of the task stay. |
| `TaskSidebar.Notify` | src/ui/components/sidebar.tsx:20-22 | The listener receives the new list exactly when one is provided. |
| `TaskSidebar.HandleAddTask` | src/ui/components/sidebar.tsx:10-23 | One task is appended at the end and the existing tasks are unchanged. The form is hidden, and the new list is notified. |
| `TaskSidebar.UpdateAll` | src/ui/components/sidebar.tsx:27-29 | Same length and order. Tasks with the id are merged with the update; every other task is unchanged. |
| `TaskSidebar.HandleUpdateTask` | src/ui/components/sidebar.tsx:26-36 | The list is UpdateAll of the old one, the form flag stays, and the new list is notified. |
| `TaskSidebar.HandleDeleteTask` | src/ui/components/sidebar.tsx:39-46 | A task remains iff it was there and does not carry the id, in original order. The form flag stays, and the new list is notified. |
| `TaskSidebar.OpenNewTaskForm` | src/ui/components/sidebar.tsx:86 | The form is shown; the tasks stay. |
| `TaskSidebar.CancelNewTaskForm` | src/ui/components/sidebar.tsx:83 | The form is hidden; the tasks stay. |
| `TaskSidebar.DeleteAbsentId` | src/ui/components/sidebar.tsx:39-41 | Deleting an id no task carries leaves the state unchanged. |
| `TaskSidebar.DeleteIdempotent` | src/ui/components/sidebar.tsx:39-41 | Deleting the same id twice is deleting it once. |
| `TaskSidebar.DeleteCount` | src/ui/components/sidebar.tsx:39-41 | Kept tasks plus tasks carrying the id add up to the old length. |
| `TaskSidebar.UpdateKeepsIds` | src/ui/components/sidebar.tsx:27-40 | An update without an `id` field never changes which tasks carry the id. |
| `TaskSidebar.DeleteAfterUpdate` | src/ui/components/sidebar.tsx:26-46 | Deleting after such an update gives the same list as deleting straight away. |
| `TaskSidebar.UpdateAbsentId` | src/ui/components/sidebar.tsx:27-29 | An update for an id no task carries leaves the list unchanged. |
| `TaskSidebar.AddThenDelete` | src/ui/components/sidebar.tsx:10-46 | Adding id-less task data at a fresh clock value and then deleting that id restores the list. |
| `TaskSidebar.SuppliedIdWins` | src/ui/components/sidebar.tsx:11-14 | When taskData has an `id`, the appended task keeps it instead of the clock value. |

## Left out

- Network: the chat request is a function parameter `exchange`. The HTTP
  POST, the API key header and reading `choices[0].message.content` are not
  modelled; a failure anywhere in them is a `TransportFailure`.
- `JSON.parse`: it is foreign. Its result arrives in the `Reply`, with None
  for a parse error. `JSON.stringify` in `exportToJson` and in the store is not
  modelled; `ExportToJson` returns the document before serialisation.
- `Date`:
  - The clock is a parameter everywhere.
  - `toISOString` is the parameter `toIso`.
  - `new Date(text)` on a composed instant is kept as that text. An instant's
    parsing and time zone are not modelled, so an invalid date such as
    "2023-13-45" is not flagged.
- Groq.ParseResponse: the `typeof responseContent === "string"` else-branch is
  not modelled. `message.content` is a string or, at run time, possibly null.
  A null content reaches `null.map` in that branch, which throws and gives
  []. `Received(None)` gives the same result.
- The prompt: the fixed instruction wording around the email fields is not
  reproduced. `EmailPrompt` keeps the interpolated fields only.
- Console logging: everywhere.
- Export and autoExport: `exportDataset` and the autoExport trigger in
  `addEntry` do Blob, URL and DOM download work.
- Stored values: falsy stored values are not modelled. On the chrome.storage
  path `getItem` turns them into null. On the localStorage path it returns the
  parsed falsy value itself, and `loadFromStorage`'s `if (data)` then treats
  it like null. Both paths therefore end as a missing key does (modelled). The store holds
  either the service's own snapshot or a truthy value without `entries`.
- Dataset.DatasetService.LoadFromStorage: it does not model a read that throws
  outside `getItem`. `getItem` catches its own errors and returns null, so the
  catch branch that resets the entries is unreachable through it.
- JavaScript strings as UTF-16: they are modelled as sequences of characters.
  Lengths (the 4000 limit) count Dafny characters. `Dataset.LexLe` orders
  strings by Unicode scalar value, whereas JavaScript's `<=` on the timestamp
  bounds compares UTF-16 code units. The two orders disagree when a character
  above U+FFFF meets one in U+E000–U+FFFF.
- Dataset.MergeConfig: a `storageKey` given explicitly as `undefined` is
  not modelled. The key is a present string or the default.
- Dataset.Capped: `maxEntries` is an integer, so a NaN or fractional cap is
  not modelled.
- Dataset.Serialise: `toIso` is total, so the `RangeError` that
  `toISOString` throws on an Invalid Date is not modelled.
- Groq.ParseResponse: one clock reading `today` serves every element. The
  code builds a new `Date` per element, which differs only if a day boundary
  passes during the `map`.
- Concurrency in the review sidebar: while loading, the approve and reject
  buttons are not disabled, so a second click can start a second callback.
  The model keeps one outstanding callback at a time: `HandleApprove` and
  `HandleReject` require that none is pending, and another click before it
  settles is not modelled.
- Re-renders from the parent between a click and its settling: they are
  modelled through `EventsChanged`. The closure then still sees the list of
  the click, and the effect runs on the current one.
- `onEventUpdate` and `handleAddNew`: `onEventUpdate` is never called by the
  sidebar. `handleAddNew` is defined but bound to nothing.
- `extractEvents`, `getEmailSubject`, `getEmailBody` and `getEmailSender`:
  they only throw "not implemented", so they are not modelled.
- Task data fields that are explicitly `undefined`: not modelled. A task is a
  map of present fields, so `{...task, x: undefined}` cannot be written.
- Object key order: not modelled.
- Task ids: only numeric `===` comparison against the `taskId` argument is
  modelled.
- Presentational components, and the calendar, OAuth, Inbox SDK, popup and
  analysis-script parts of the repository: not part of this model.

## Notes on the code and its tests

- The Groq unit test reads `events[0].startDate`, but the code produces
  `startDateTime` and `endDateTime` and no `startDate` field. The model
  follows the code, and `WellFormedReplyScenario` states the start instant
  instead.
- `parseResponse` turns a reply containing a null element into no events at
  all, because reading `null.startDate` throws inside the `map`.
- `maxEntries` can be negative. `slice(-maxEntries)` then drops the first
  |maxEntries| entries rather than keeping the most recent ones, so
  `AppendedIsNewest` and the save methods' "last entry" clause assume a cap
  that is not negative.
