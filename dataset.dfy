/**
 * The dataset recorder: an append-only, capped log of approve/reject decisions
 * that shadows every change into a key-value store. Clock readings and the
 * instant-to-ISO conversion are parameters; the store's success or failure on a
 * call is a parameter too.
 */
module Dataset {

  import opened Wrappers
  import opened JsValues
  import opened Events
  import opened Seqs

  datatype Action = Approved | Rejected

  /** An event as stored in the dataset: its instants turned into ISO text. */
  datatype DatasetEvent = DatasetEvent(
    id: Option<string>,
    title: Json,
    description: Json,
    startDateTime: string,
    endDateTime: string,
    location: Json,
    status: Status,
    mailLink: Option<string>)

  /** One recorded decision; `events` holds the event when approved and is empty when rejected. */
  datatype DatasetEntry = DatasetEntry(
    emailSubject: string,
    emailBody: string,
    emailSender: string,
    emailDate: string,
    events: seq<DatasetEvent>,
    action: Action,
    timestamp: string)

  /** The effective configuration; None stands for a field that holds `undefined`. */
  datatype DatasetConfig = DatasetConfig(maxEntries: Option<int>, storageKey: string, autoExport: Option<bool>)

  /**
   * A field of the constructor's partial configuration: not given, given as
   * `undefined` (the object spread copies it over the default), or given a value.
   */
  datatype PartialField<T> = Absent | ExplicitUndefined | Given(value: T)

  datatype PartialConfig = PartialConfig(
    maxEntries: PartialField<int>,
    storageKey: Option<string>,
    autoExport: PartialField<bool>)

  datatype DatasetStats = DatasetStats(totalEntries: nat, approvedEntries: nat, rejectedEntries: nat, lastUpdated: string)

  /** The optional criteria of getAllEntries; an absent filter is all None. */
  datatype EntryFilter = EntryFilter(action: Option<Action>, fromDate: Option<string>, toDate: Option<string>)

  datatype ConfigReport = ConfigReport(maxEntries: int, storageKey: string, autoSave: bool)

  datatype ExportMetadata = ExportMetadata(exportDate: string, totalEntries: nat, stats: DatasetStats)

  /** The document exportToJson serialises (the serialisation itself is not modelled). */
  datatype ExportDocument = ExportDocument(metadata: ExportMetadata, entries: seq<DatasetEntry>)

  /** What the dataset key of the store can hold: the recorder's own snapshot, or a value without `entries`. */
  datatype Stored = Snapshot(entries: seq<DatasetEntry>, lastSaved: string) | WithoutEntries

  const DefaultMaxEntries: int := 1000
  const DefaultStorageKey: string := "gmail-event-extractor-dataset"

  const NoOverrides := PartialConfig(Absent, None, Absent)
  const NoFilter := EntryFilter(None, None, None)

  // ---------------------------------------------------------------------------
  // String comparison

  /** JavaScript's `a <= b` on strings: lexicographic order on characters. */
  predicate LexLe(a: string, b: string)
    decreases |a|
  {
    a == [] || (b != [] && (a[0] < b[0] || (a[0] == b[0] && LexLe(a[1..], b[1..]))))
  }

  lemma {:induction false} LexLeReflexive(a: string)
    ensures LexLe(a, a)
    decreases |a|
  {
    if a != [] {
      LexLeReflexive(a[1..]);
    }
  }

  lemma {:induction false} LexLeAntisymmetric(a: string, b: string)
    requires LexLe(a, b) && LexLe(b, a)
    ensures a == b
    decreases |a|
  {
    if a != [] {
      LexLeAntisymmetric(a[1..], b[1..]);
      assert a == [a[0]] + a[1..] && b == [b[0]] + b[1..];
    }
  }

  lemma {:induction false} LexLeTransitive(a: string, b: string, c: string)
    requires LexLe(a, b) && LexLe(b, c)
    ensures LexLe(a, c)
    decreases |a|
  {
    if a != [] && a[0] == b[0] && b[0] == c[0] {
      LexLeTransitive(a[1..], b[1..], c[1..]);
    }
  }

  lemma {:induction false} LexLeTotal(a: string, b: string)
    ensures LexLe(a, b) || LexLe(b, a)
    decreases |a|
  {
    if a != [] && b != [] && a[0] == b[0] {
      LexLeTotal(a[1..], b[1..]);
    }
  }

  // ---------------------------------------------------------------------------
  // Configuration

  function Setting<T>(field: PartialField<T>, default: T): (r: Option<T>)
    ensures field.Absent? ==> r == Some(default)
    ensures field.ExplicitUndefined? ==> r.None?
    ensures field.Given? ==> r == Some(field.value)
  {
    match field
    case Absent => Some(default)
    case ExplicitUndefined => None
    case Given(v) => Some(v)
  }

  /** `{ maxEntries: 1000, storageKey: ..., autoExport: false, ...config }`. */
  function MergeConfig(partial: PartialConfig): (c: DatasetConfig)
    ensures partial == NoOverrides ==>
              c == DatasetConfig(Some(DefaultMaxEntries), DefaultStorageKey, Some(false))
    ensures partial.maxEntries.Given? ==> c.maxEntries == Some(partial.maxEntries.value)
    ensures partial.autoExport.Given? ==> c.autoExport == Some(partial.autoExport.value)
    ensures c.storageKey == partial.storageKey.GetOr(DefaultStorageKey)
  {
    DatasetConfig(
      Setting(partial.maxEntries, DefaultMaxEntries),
      partial.storageKey.GetOr(DefaultStorageKey),
      Setting(partial.autoExport, false))
  }

  /** The cap applies when `maxEntries` is truthy: present and not 0. */
  predicate CapApplies(maxEntries: Option<int>) {
    maxEntries.Some? && maxEntries.value != 0
  }

  // ---------------------------------------------------------------------------
  // The list operations behind addEntry and getAllEntries

  /** `Array.prototype.slice(start)`: a negative start counts from the end. */
  function SliceFrom<T>(s: seq<T>, start: int): (r: seq<T>)
    ensures start >= 0 ==> r == s[if start <= |s| then start else |s|..]
    ensures start < 0 ==> r == s[if -start <= |s| then |s| + start else 0..]
  {
    var k := if start < 0 then (if |s| + start < 0 then 0 else |s| + start)
             else (if start > |s| then |s| else start);
    s[k..]
  }

  /** addEntry's cap: `if (maxEntries && length > maxEntries) entries = entries.slice(-maxEntries)`. */
  function Capped(es: seq<DatasetEntry>, maxEntries: Option<int>): (r: seq<DatasetEntry>)
    ensures !CapApplies(maxEntries) ==> r == es
    ensures CapApplies(maxEntries) && maxEntries.value > 0 ==>
              |r| == (if |es| <= maxEntries.value then |es| else maxEntries.value) &&
              r == es[|es| - |r|..]
    ensures CapApplies(maxEntries) && maxEntries.value < 0 ==>
              r == es[if -maxEntries.value <= |es| then -maxEntries.value else |es|..]
  {
    if CapApplies(maxEntries) && |es| > maxEntries.value then SliceFrom(es, -maxEntries.value) else es
  }

  /** After appending `x` and capping, `x` is the last entry unless the cap is negative. */
  lemma AppendedIsNewest(es: seq<DatasetEntry>, x: DatasetEntry, maxEntries: Option<int>)
    requires maxEntries.None? || maxEntries.value >= 0
    ensures var r := Capped(es + [x], maxEntries);
            |r| > 0 && r[|r| - 1] == x &&
            (CapApplies(maxEntries) ==> |r| <= maxEntries.value) &&
            r[..|r| - 1] == es[|es| + 1 - |r|..]
  {
    var r := Capped(es + [x], maxEntries);
    assert r == (es + [x])[|es| + 1 - |r|..];
    assert r[..|r| - 1] == (es + [x])[|es| + 1 - |r|..|es|];
  }

  /** One cap of N > 0 over a list ending in N or more new entries keeps exactly the last N of them. */
  lemma {:induction false} CapKeepsLastN(es: seq<DatasetEntry>, added: seq<DatasetEntry>, n: int)
    requires n > 0 && |added| >= n
    ensures Capped(es + added, Some(n)) == added[|added| - n..]
  {
    var all := es + added;
    assert all[|all| - n..] == added[|added| - n..];
  }

  /** The fold of addEntry over a run of saves: push one entry, cap, and go on with the next. */
  function Saves(es: seq<DatasetEntry>, added: seq<DatasetEntry>, maxEntries: Option<int>): seq<DatasetEntry>
    decreases |added|
  {
    if added == [] then es else Saves(Capped(es + [added[0]], maxEntries), added[1..], maxEntries)
  }

  /** With a positive cap, capping the list before more entries are pushed changes nothing in the end. */
  lemma CappedAbsorbs(xs: seq<DatasetEntry>, ys: seq<DatasetEntry>, n: int)
    requires n > 0
    ensures Capped(Capped(xs, Some(n)) + ys, Some(n)) == Capped(xs + ys, Some(n))
  {
    var c := Capped(xs, Some(n));
    var k := |xs| - |c|;
    assert c == xs[k..];
    var l := Capped(c + ys, Some(n));
    var r := Capped(xs + ys, Some(n));
    assert |l| == |r|;
    assert c + ys == (xs + ys)[k..];
    forall i | 0 <= i < |l|
      ensures l[i] == r[i]
    {
      assert l[i] == (c + ys)[|c + ys| - |l| + i];
      assert r[i] == (xs + ys)[|xs + ys| - |r| + i];
    }
  }

  /**
   * One more save extends the fold: so after the AddEntry calls for `added`,
   * each of whose postconditions is one step `Capped(entries + [entry])`,
   * the entries are `Saves(initial, added)`.
   */
  lemma {:induction false} SavesSnoc(es: seq<DatasetEntry>, added: seq<DatasetEntry>, x: DatasetEntry,
                                     maxEntries: Option<int>)
    ensures Saves(es, added + [x], maxEntries) == Capped(Saves(es, added, maxEntries) + [x], maxEntries)
    decreases |added|
  {
    if added == [] {
      assert added + [x] == [x];
    } else {
      assert (added + [x])[0] == added[0];
      assert (added + [x])[1..] == added[1..] + [x];
      SavesSnoc(Capped(es + [added[0]], maxEntries), added[1..], x, maxEntries);
    }
  }

  /** Consecutive saves under a positive cap amount to one cap over all the entries. */
  lemma {:induction false} SavesAreOneCap(es: seq<DatasetEntry>, added: seq<DatasetEntry>, n: int)
    requires n > 0 && added != []
    ensures Saves(es, added, Some(n)) == Capped(es + added, Some(n))
    decreases |added|
  {
    var next := Capped(es + [added[0]], Some(n));
    assert (es + [added[0]]) + added[1..] == es + added;
    if |added| == 1 {
      assert added == [added[0]];
    } else {
      SavesAreOneCap(next, added[1..], n);
      CappedAbsorbs(es + [added[0]], added[1..], n);
    }
  }

  /** FIFO truncation: with cap N > 0, N or more consecutive saves leave exactly the last N saved. */
  lemma SavesKeepLastN(es: seq<DatasetEntry>, added: seq<DatasetEntry>, n: int)
    requires n > 0 && |added| >= n
    ensures Saves(es, added, Some(n)) == added[|added| - n..]
  {
    SavesAreOneCap(es, added, n);
    CapKeepsLastN(es, added, n);
  }

  function HasAction(a: Action): DatasetEntry -> bool {
    (e: DatasetEntry) => e.action == a
  }

  /** Every entry is approved or rejected, never both. */
  lemma ActionsPartition(es: seq<DatasetEntry>)
    ensures |Filter(es, HasAction(Approved))| + |Filter(es, HasAction(Action.Rejected))| == |es|
  {
    FilterCount(es, HasAction(Approved), HasAction(Action.Rejected));
    FilterCount(es, HasAction(Action.Rejected), HasAction(Approved));
  }

  /** A criterion is applied when given and truthy; the empty string is falsy. */
  predicate Supplied(bound: Option<string>) {
    bound.Some? && bound.value != ""
  }

  /** The conjunction of the supplied criteria; the date bounds are inclusive. */
  predicate Satisfies(f: EntryFilter, e: DatasetEntry) {
    && (f.action.Some? ==> e.action == f.action.value)
    && (Supplied(f.fromDate) ==> LexLe(f.fromDate.value, e.timestamp))
    && (Supplied(f.toDate) ==> LexLe(e.timestamp, f.toDate.value))
  }

  /** Filtering by an action alone is filtering by the criterion that names only that action. */
  lemma ActionFilterIsCriterion(es: seq<DatasetEntry>, a: Action)
    ensures Filter(es, HasAction(a)) == Filter(es, (e: DatasetEntry) => Satisfies(EntryFilter(Some(a), None, None), e))
  {
    FilterExt(es, HasAction(a), (e: DatasetEntry) => Satisfies(EntryFilter(Some(a), None, None), e));
  }

  /** getAllEntries' three successive filters. */
  function ApplyFilter(es: seq<DatasetEntry>, f: EntryFilter): (r: seq<DatasetEntry>)
    ensures |r| <= |es|
    ensures forall e :: e in r ==> e in es && (f.action.Some? ==> e.action == f.action.value)
    ensures f == NoFilter ==> r == es
  {
    var byAction := if f.action.Some? then Filter(es, HasAction(f.action.value)) else es;
    var byFrom := if Supplied(f.fromDate)
                  then Filter(byAction, (e: DatasetEntry) => LexLe(f.fromDate.value, e.timestamp))
                  else byAction;
    if Supplied(f.toDate) then Filter(byFrom, (e: DatasetEntry) => LexLe(e.timestamp, f.toDate.value))
    else byFrom
  }

  /** The three filters amount to one pass with the conjunction of the criteria. */
  lemma ApplyFilterIsConjunction(es: seq<DatasetEntry>, f: EntryFilter)
    ensures ApplyFilter(es, f) == Filter(es, (e: DatasetEntry) => Satisfies(f, e))
  {
    var p1 := (e: DatasetEntry) => f.action.Some? ==> e.action == f.action.value;
    var p2 := (e: DatasetEntry) => Supplied(f.fromDate) ==> LexLe(f.fromDate.value, e.timestamp);
    var p3 := (e: DatasetEntry) => Supplied(f.toDate) ==> LexLe(e.timestamp, f.toDate.value);
    var p12 := (e: DatasetEntry) => p1(e) && p2(e);
    var all := (e: DatasetEntry) => Satisfies(f, e);
    var byAction := if f.action.Some? then Filter(es, HasAction(f.action.value)) else es;
    if f.action.Some? {
      FilterExt(es, HasAction(f.action.value), p1);
    } else {
      FilterAll(es, p1);
    }
    var byFrom := if Supplied(f.fromDate)
                  then Filter(byAction, (e: DatasetEntry) => LexLe(f.fromDate.value, e.timestamp))
                  else byAction;
    if Supplied(f.fromDate) {
      FilterExt(byAction, (e: DatasetEntry) => LexLe(f.fromDate.value, e.timestamp), p2);
    } else {
      FilterAll(byAction, p2);
    }
    if Supplied(f.toDate) {
      FilterExt(byFrom, (e: DatasetEntry) => LexLe(e.timestamp, f.toDate.value), p3);
    } else {
      FilterAll(byFrom, p3);
    }
    FilterFilter(es, p1, p2, p12);
    FilterFilter(es, p12, p3, all);
  }

  /** Equal inclusive bounds select exactly the entries with that timestamp. */
  lemma SingleInstantWindow(es: seq<DatasetEntry>, action: Option<Action>, t: string, e: DatasetEntry)
    requires t != ""
    ensures e in ApplyFilter(es, EntryFilter(action, Some(t), Some(t))) <==>
            e in es && (action.Some? ==> e.action == action.value) && e.timestamp == t
  {
    var f := EntryFilter(action, Some(t), Some(t));
    ApplyFilterIsConjunction(es, f);
    FilterMembership(es, (x: DatasetEntry) => Satisfies(f, x), e);
    if LexLe(t, e.timestamp) && LexLe(e.timestamp, t) {
      LexLeAntisymmetric(t, e.timestamp);
    }
    if e.timestamp == t {
      LexLeReflexive(t);
    }
  }

  /** The ISO text of an optional instant, '' when absent. */
  function IsoOrEmpty(instant: Option<string>, toIso: string -> string): (r: string)
    ensures instant.None? ==> r == ""
    ensures instant.Some? ==> r == toIso(instant.value)
  {
    match instant
    case None => ""
    case Some(t) => toIso(t)
  }

  /** `{ ...event, startDateTime: iso-or-'', endDateTime: iso-or-'' }`. */
  function Serialise(e: Event, toIso: string -> string): (d: DatasetEvent)
    ensures d.id == e.id && d.title == e.title && d.description == e.description
    ensures d.location == e.location && d.status == e.status && d.mailLink == e.mailLink
    ensures d.startDateTime == IsoOrEmpty(e.startDateTime, toIso)
    ensures d.endDateTime == IsoOrEmpty(e.endDateTime, toIso)
  {
    DatasetEvent(e.id, e.title, e.description, IsoOrEmpty(e.startDateTime, toIso),
                 IsoOrEmpty(e.endDateTime, toIso), e.location, e.status, e.mailLink)
  }

  // ---------------------------------------------------------------------------
  // The store and the service

  /** The key-value persistence collaborator. */
  class KeyValueStore {
    var items: map<string, Stored>

    constructor (items: map<string, Stored>)
      ensures this.items == items
    {
      this.items := items;
    }

    /** `setItem`; when `ok` is false the write throws and nothing is stored. */
    method SetItem(key: string, value: Stored, ok: bool)
      modifies this
      ensures items == if ok then old(items)[key := value] else old(items)
    {
      if ok {
        items := items[key := value];
      }
    }

    /** `getItem`; a failed read or a missing key yields null (None). */
    method GetItem(key: string, ok: bool) returns (r: Option<Stored>)
      ensures r.Some? <==> ok && key in items
      ensures r.Some? ==> r.value == items[key]
    {
      if ok && key in items {
        r := Some(items[key]);
      } else {
        r := None;
      }
    }
  }

  class DatasetService {
    var entries: seq<DatasetEntry>
    const config: DatasetConfig
    const store: KeyValueStore

    constructor (partial: PartialConfig, store: KeyValueStore)
      ensures entries == [] && config == MergeConfig(partial) && this.store == store
    {
      entries := [];
      config := MergeConfig(partial);
      this.store := store;
    }

    /** `initialize`: load whatever the store holds under the dataset key. */
    method Initialize(readOk: bool)
      modifies this
      ensures !readOk || config.storageKey !in store.items ==> entries == old(entries)
      ensures readOk && config.storageKey in store.items ==>
                entries == (match store.items[config.storageKey]
                            case Snapshot(es, _) => es
                            case WithoutEntries => [])
    {
      LoadFromStorage(readOk);
    }

    /** `loadFromStorage`: `entries = data.entries || []` when data is truthy; null leaves entries as they are. */
    method LoadFromStorage(readOk: bool)
      modifies this
      ensures !readOk || config.storageKey !in store.items ==> entries == old(entries)
      ensures readOk && config.storageKey in store.items ==>
                entries == (match store.items[config.storageKey]
                            case Snapshot(es, _) => es
                            case WithoutEntries => [])
    {
      var data := store.GetItem(config.storageKey, readOk);
      if data.Some? {
        match data.value
        case Snapshot(es, _) => entries := es;
        case WithoutEntries => entries := [];
      }
    }

    /** `createDatasetEntry`: the email fields, the serialised events, the action and the clock reading. */
    static function CreateDatasetEntry(email: EmailDetails, events: seq<Event>, action: Action,
                                       toIso: string -> string, now: string): (r: DatasetEntry)
      ensures r.emailSubject == email.subject && r.emailBody == email.body && r.emailDate == email.dateTime
      ensures r.emailSender == email.senderName + " <" + email.senderEmail + ">"
      ensures r.action == action && r.timestamp == now
      ensures |r.events| == |events|
      ensures forall i :: 0 <= i < |events| ==> r.events[i] == Serialise(events[i], toIso)
    {
      DatasetEntry(email.subject, email.body, email.senderName + " <" + email.senderEmail + ">",
                   email.dateTime, seq(|events|, i requires 0 <= i < |events| => Serialise(events[i], toIso)),
                   action, now)
    }

    /** `saveToStorage`: write `{entries, lastSaved}`; a failing write is swallowed. */
    method SaveToStorage(savedAt: string, writeOk: bool)
      modifies store
      ensures store.items == if writeOk then old(store.items)[config.storageKey := Snapshot(entries, savedAt)]
                             else old(store.items)
    {
      store.SetItem(config.storageKey, Snapshot(entries, savedAt), writeOk);
    }

    /** `addEntry`: push, cap to the most recent maxEntries, persist. */
    method AddEntry(entry: DatasetEntry, savedAt: string, writeOk: bool)
      modifies this, store
      ensures entries == Capped(old(entries) + [entry], config.maxEntries)
      ensures store.items == if writeOk then old(store.items)[config.storageKey := Snapshot(entries, savedAt)]
                             else old(store.items)
    {
      entries := entries + [entry];
      if config.maxEntries.Some? && config.maxEntries.value != 0 && |entries| > config.maxEntries.value {
        entries := SliceFrom(entries, -config.maxEntries.value);
      }
      SaveToStorage(savedAt, writeOk);
    }

    /** `saveApprovedEvent`: record the one event with action 'approved'. */
    method SaveApprovedEvent(email: EmailDetails, event: Event, toIso: string -> string,
                             now: string, savedAt: string, writeOk: bool)
      modifies this, store
      ensures entries == Capped(old(entries) + [CreateDatasetEntry(email, [event], Approved, toIso, now)],
                                config.maxEntries)
      ensures config.maxEntries.None? || config.maxEntries.value >= 0 ==>
                |entries| > 0 && entries[|entries| - 1].action == Approved &&
                entries[|entries| - 1].events == [Serialise(event, toIso)]
      ensures store.items == if writeOk then old(store.items)[config.storageKey := Snapshot(entries, savedAt)]
                             else old(store.items)
    {
      var entry := CreateDatasetEntry(email, [event], Approved, toIso, now);
      if config.maxEntries.None? || config.maxEntries.value >= 0 {
        AppendedIsNewest(entries, entry, config.maxEntries);
      }
      AddEntry(entry, savedAt, writeOk);
    }

    /** `saveRejectedEvent`: record an empty event list with action 'rejected', whatever event is passed. */
    method SaveRejectedEvent(email: EmailDetails, event: Event, toIso: string -> string,
                             now: string, savedAt: string, writeOk: bool)
      modifies this, store
      ensures entries == Capped(old(entries) + [CreateDatasetEntry(email, [], Action.Rejected, toIso, now)],
                                config.maxEntries)
      ensures config.maxEntries.None? || config.maxEntries.value >= 0 ==>
                |entries| > 0 && entries[|entries| - 1].action == Action.Rejected &&
                entries[|entries| - 1].events == []
      ensures store.items == if writeOk then old(store.items)[config.storageKey := Snapshot(entries, savedAt)]
                             else old(store.items)
    {
      var entry := CreateDatasetEntry(email, [], Action.Rejected, toIso, now);
      if config.maxEntries.None? || config.maxEntries.value >= 0 {
        AppendedIsNewest(entries, entry, config.maxEntries);
      }
      AddEntry(entry, savedAt, writeOk);
    }

    /** `clearDataset`: drop every entry and persist the empty list. */
    method ClearDataset(savedAt: string, writeOk: bool)
      modifies this, store
      ensures entries == []
      ensures store.items == if writeOk then old(store.items)[config.storageKey := Snapshot([], savedAt)]
                             else old(store.items)
    {
      entries := [];
      SaveToStorage(savedAt, writeOk);
    }

    /** `getEntries`: a copy of the in-memory list. */
    function GetEntries(): (r: seq<DatasetEntry>)
      reads this
      ensures |r| == |entries| && forall i :: 0 <= i < |r| ==> r[i] == entries[i]
    {
      entries
    }

    /** `getAllEntries`: the entries meeting every supplied criterion, in their original order. */
    function GetAllEntries(f: EntryFilter): (r: seq<DatasetEntry>)
      reads this
      ensures r == Filter(entries, (e: DatasetEntry) => Satisfies(f, e))
      ensures forall e :: e in r <==> e in entries && Satisfies(f, e)
      ensures f == NoFilter ==> r == entries
    {
      ApplyFilterIsConjunction(entries, f);
      assert forall e :: e in Filter(entries, (x: DatasetEntry) => Satisfies(f, x)) <==>
                         e in entries && Satisfies(f, e) by {
        forall e {
          FilterMembership(entries, (x: DatasetEntry) => Satisfies(f, x), e);
        }
      }
      ApplyFilter(entries, f)
    }

    /** `getStats`: the counts by action and the last entry's timestamp (the clock when empty). */
    function GetStats(now: string): (s: DatasetStats)
      reads this
      ensures s.totalEntries == |entries|
      ensures s.approvedEntries + s.rejectedEntries == s.totalEntries
      ensures s.approvedEntries == |GetAllEntries(EntryFilter(Some(Approved), None, None))|
      ensures s.rejectedEntries == |GetAllEntries(EntryFilter(Some(Action.Rejected), None, None))|
      ensures |entries| > 0 ==> s.lastUpdated == entries[|entries| - 1].timestamp
      ensures entries == [] ==> s.lastUpdated == now
    {
      var approved := Filter(entries, HasAction(Approved));
      var rejected := Filter(entries, HasAction(Action.Rejected));
      ActionsPartition(entries);
      ActionFilterIsCriterion(entries, Approved);
      ActionFilterIsCriterion(entries, Action.Rejected);
      DatasetStats(|entries|, |approved|, |rejected|,
                   if |entries| > 0 then entries[|entries| - 1].timestamp else now)
    }

    /**
     * `exportToJson`: the export document (before serialisation). The clock is
     * read twice: once for the export date and once inside getStats.
     */
    function ExportToJson(exportClock: string, statsClock: string): (d: ExportDocument)
      reads this
      ensures d.entries == entries && d.metadata.exportDate == exportClock
      ensures d.metadata.totalEntries == d.metadata.stats.totalEntries == |entries|
      ensures d.metadata.stats == GetStats(statsClock)
    {
      ExportDocument(ExportMetadata(exportClock, |entries|, GetStats(statsClock)), entries)
    }

    /** `getConfig`: `maxEntries || 1000` and `autoSave = autoExport || false`. */
    function GetConfig(): (r: ConfigReport)
      ensures r.maxEntries != 0
      ensures CapApplies(config.maxEntries) ==> r.maxEntries == config.maxEntries.value
      ensures !CapApplies(config.maxEntries) ==> r.maxEntries == DefaultMaxEntries
      ensures r.storageKey == config.storageKey
      ensures r.autoSave <==> config.autoExport == Some(true)
    {
      ConfigReport(if CapApplies(config.maxEntries) then config.maxEntries.value else DefaultMaxEntries,
                   config.storageKey,
                   config.autoExport.GetOr(false))
    }
  }
}
