/**
 * The review sidebar for extracted event candidates: one candidate at a time is
 * shown in an editable form; approving or rejecting it awaits the parent's
 * callback and then moves on to the next candidate or closes the sidebar.
 *
 * The hook state (active index, edited candidate, loading flag, error message)
 * is the state of the class. Each handler is split at its `await`: the first
 * half runs on the click and leaves an outstanding callback, the second half
 * runs when the callback settles, with the index and list the handler's closure
 * captured at the click. The parent's callbacks are recorded in `calls`; their
 * outcome is a parameter.
 */
module EventReview {

  import opened Wrappers
  import opened JsValues
  import opened Events

  const TitleRequired: string := "יש להזין כותרת לאירוע"
  const ApproveFailed: string := "אירעה שגיאה בעת ההוספה ליומן. נסה שוב."
  const RejectFailed: string := "אירעה שגיאה בעת הדחייה. נסה שוב."

  /** A call the sidebar makes on its parent. */
  datatype Callback = ApproveCalled(event: Event) | RejectCalled(event: Event) | CloseCalled

  datatype Decision = Approval | Rejection

  /** An awaited callback, with the index and list its handler's closure saw. */
  datatype Pending = Pending(decision: Decision, index: nat, events: seq<Event>)

  /**
   * The blank template used in add mode and on close: empty texts, no id, status
   * 'suggested', and the two instants taken when the module was loaded (now and
   * one hour later). Its title is falsy, so it cannot be approved unedited.
   */
  function BlankEvent(loadedAt: string, hourLater: string): (e: Event)
    ensures !Truthy(e.title) && !Truthy(e.description) && !Truthy(e.location)
    ensures e.status == Suggested && e.id.None? && e.mailLink.None?
    ensures e.startDateTime == Some(loadedAt) && e.endDateTime == Some(hourLater)
  {
    Event(None, JString(""), JString(""), Some(loadedAt), Some(hourLater), JString(""), Suggested, None)
  }

  /** The effect's `Math.min(index, length - 1)` for a non-empty list, and 0 for an empty one. */
  function ClampIndex(index: nat, count: nat): (r: nat)
    ensures count == 0 ==> r == 0
    ensures count > 0 ==> r < count && r <= index
    ensures index < count ==> r == index
    ensures 0 < count <= index ==> r == count - 1
  {
    if count == 0 then 0 else if index < count - 1 then index else count - 1
  }

  /** `goToNextOrClose`: the next index when there is one, None when the sidebar closes instead. */
  function NextOrClose(index: nat, count: nat): (r: Option<nat>)
    ensures r.Some? <==> index + 1 < count
    ensures r.Some? ==> r.value == index + 1
  {
    if index + 1 < count then Some(index + 1) else None
  }

  /** The navigation is rendered for more than one candidate; "previous" is disabled at the first. */
  predicate PrevEnabled(index: nat, count: nat) {
    count > 1 && index != 0
  }

  /** "Next" is disabled at the last candidate. */
  predicate NextEnabled(index: nat, count: nat) {
    count > 1 && index != count - 1
  }

  class EventSidebar {
    var events: seq<Event>
    const blank: Event
    var activeEventIndex: nat
    var editedEvent: Event
    var loading: bool
    var errorMsg: string
    var pending: Option<Pending>
    var calls: seq<Callback>

    /** The index is 0 in add mode and in range otherwise. */
    ghost predicate IndexInRange()
      reads this
    {
      if |events| == 0 then activeEventIndex == 0 else activeEventIndex < |events|
    }

    /** The index is in range; `loading` holds exactly while a callback is awaited. */
    ghost predicate Valid()
      reads this
    {
      IndexInRange() &&
      (loading <==> pending.Some?) &&
      (pending.Some? ==> errorMsg == "" &&
                         (pending.value.index < |pending.value.events| ||
                          (pending.value.index == 0 && pending.value.events == [])))
    }

    /**
     * The state after mounting and the first run of the effect; `loadedAt` and
     * `hourLater` are the clock readings taken when `emptyEvent` was built.
     */
    constructor(events: seq<Event>, loadedAt: string, hourLater: string)
      ensures Valid()
      ensures this.events == events && activeEventIndex == 0
      ensures blank == BlankEvent(loadedAt, hourLater)
      ensures editedEvent == (if |events| == 0 then BlankEvent(loadedAt, hourLater) else events[0])
      ensures !loading && errorMsg == "" && pending.None? && calls == []
    {
      this.events := events;
      this.blank := BlankEvent(loadedAt, hourLater);
      activeEventIndex := 0;
      editedEvent := if |events| == 0 then blank else events[0];
      loading := false;
      errorMsg := "";
      pending := None;
      calls := [];
    }

    /** The effect on the list and the index: clamp the index and reload the candidate it names. */
    method SyncWithEvents()
      modifies this
      ensures activeEventIndex == ClampIndex(old(activeEventIndex), |events|)
      ensures editedEvent == (if |events| == 0 then blank else events[activeEventIndex])
      ensures events == old(events) && loading == old(loading) && errorMsg == old(errorMsg)
      ensures pending == old(pending) && calls == old(calls)
    {
      if |events| > 0 {
        var validIndex := ClampIndex(activeEventIndex, |events|);
        if validIndex != activeEventIndex {
          activeEventIndex := validIndex;
        }
        editedEvent := events[validIndex];
      } else {
        editedEvent := blank;
        activeEventIndex := 0;
      }
    }

    /** The parent passes a new list of candidates; the effect runs. */
    method EventsChanged(newEvents: seq<Event>)
      requires Valid()
      modifies this
      ensures Valid()
      ensures events == newEvents
      ensures activeEventIndex == ClampIndex(old(activeEventIndex), |newEvents|)
      ensures editedEvent == (if |newEvents| == 0 then blank else newEvents[activeEventIndex])
      ensures loading == old(loading) && errorMsg == old(errorMsg) && pending == old(pending) && calls == old(calls)
    {
      events := newEvents;
      SyncWithEvents();
    }

    /** The form reports an edit of the candidate. */
    method Edit(e: Event)
      requires Valid()
      modifies this
      ensures Valid()
      ensures editedEvent == e
      ensures events == old(events) && activeEventIndex == old(activeEventIndex)
      ensures loading == old(loading) && errorMsg == old(errorMsg) && pending == old(pending) && calls == old(calls)
    {
      editedEvent := e;
    }

    /** "Next": ignored while disabled or hidden, otherwise one step forward, reloading that candidate. */
    method HandleNextEvent()
      requires Valid()
      modifies this
      ensures Valid()
      ensures NextEnabled(old(activeEventIndex), |events|) ==>
                activeEventIndex == old(activeEventIndex) + 1 && editedEvent == events[activeEventIndex]
      ensures !NextEnabled(old(activeEventIndex), |events|) ==>
                activeEventIndex == old(activeEventIndex) && editedEvent == old(editedEvent)
      ensures events == old(events) && loading == old(loading) && errorMsg == old(errorMsg)
      ensures pending == old(pending) && calls == old(calls)
    {
      if NextEnabled(activeEventIndex, |events|) {
        var i := activeEventIndex;
        editedEvent := events[i + 1];
        activeEventIndex := i + 1;
      }
    }

    /** "Previous": ignored while disabled or hidden, otherwise one step back, reloading that candidate. */
    method HandlePrevEvent()
      requires Valid()
      modifies this
      ensures Valid()
      ensures PrevEnabled(old(activeEventIndex), |events|) ==>
                activeEventIndex + 1 == old(activeEventIndex) && editedEvent == events[activeEventIndex]
      ensures !PrevEnabled(old(activeEventIndex), |events|) ==>
                activeEventIndex == old(activeEventIndex) && editedEvent == old(editedEvent)
      ensures events == old(events) && loading == old(loading) && errorMsg == old(errorMsg)
      ensures pending == old(pending) && calls == old(calls)
    {
      if PrevEnabled(activeEventIndex, |events|) {
        var i := activeEventIndex;
        editedEvent := events[i - 1];
        activeEventIndex := i - 1;
      }
    }

    /** The close button: reset the form to the blank template and tell the parent. */
    method HandleClose()
      requires Valid()
      modifies this
      ensures Valid()
      ensures editedEvent == blank && calls == old(calls) + [CloseCalled]
      ensures events == old(events) && activeEventIndex == old(activeEventIndex)
      ensures loading == old(loading) && errorMsg == old(errorMsg) && pending == old(pending)
    {
      editedEvent := blank;
      calls := calls + [CloseCalled];
    }

    /**
     * The click on "approve", up to the await: clear the error; a falsy title
     * sets the title error and stops; otherwise show loading and hand the
     * candidate, marked confirmed, to the parent.
     */
    method HandleApprove() returns (awaiting: bool)
      requires Valid() && pending.None?
      modifies this
      ensures Valid()
      ensures awaiting <==> Truthy(old(editedEvent).title)
      ensures !awaiting ==> errorMsg == TitleRequired && !loading && pending.None? && calls == old(calls)
      ensures awaiting ==> errorMsg == "" && loading &&
                           pending == Some(Pending(Approval, old(activeEventIndex), old(events))) &&
                           calls == old(calls) + [ApproveCalled(old(editedEvent).(status := Confirmed))]
      ensures events == old(events) && activeEventIndex == old(activeEventIndex) && editedEvent == old(editedEvent)
    {
      errorMsg := "";
      if !Truthy(editedEvent.title) {
        errorMsg := TitleRequired;
        return false;
      }
      loading := true;
      pending := Some(Pending(Approval, activeEventIndex, events));
      calls := calls + [ApproveCalled(editedEvent.(status := Confirmed))];
      return true;
    }

    /** The click on "reject", up to the await; there is no title check. */
    method HandleReject()
      requires Valid() && pending.None?
      modifies this
      ensures Valid()
      ensures errorMsg == "" && loading
      ensures pending == Some(Pending(Rejection, old(activeEventIndex), old(events)))
      ensures calls == old(calls) + [RejectCalled(old(editedEvent).(status := Status.Rejected))]
      ensures events == old(events) && activeEventIndex == old(activeEventIndex) && editedEvent == old(editedEvent)
    {
      loading := true;
      errorMsg := "";
      pending := Some(Pending(Rejection, activeEventIndex, events));
      calls := calls + [RejectCalled(editedEvent.(status := Status.Rejected))];
    }

    /**
     * `goToNextOrClose` as the handler's closure runs it, with the index and the
     * list of the click. Moving sets the index and the candidate; when that
     * changes the index the effect runs afterwards on the current list.
     */
    method GoToNextOrClose(index: nat, seen: seq<Event>)
      requires IndexInRange()
      requires index < |seen| || (index == 0 && seen == [])
      modifies this
      ensures IndexInRange()
      ensures NextOrClose(index, |seen|).None? ==>
                calls == old(calls) + [CloseCalled] &&
                activeEventIndex == old(activeEventIndex) && editedEvent == old(editedEvent)
      ensures NextOrClose(index, |seen|).Some? && index + 1 == old(activeEventIndex) ==>
                calls == old(calls) && activeEventIndex == old(activeEventIndex) && editedEvent == seen[index + 1]
      ensures NextOrClose(index, |seen|).Some? && index + 1 != old(activeEventIndex) ==>
                calls == old(calls) && activeEventIndex == ClampIndex(index + 1, |events|) &&
                editedEvent == (if |events| == 0 then blank else events[activeEventIndex])
      ensures events == old(events) && loading == old(loading) && errorMsg == old(errorMsg) && pending == old(pending)
    {
      if index < |seen| - 1 {
        var moved := index + 1 != activeEventIndex;
        activeEventIndex := index + 1;
        editedEvent := seen[index + 1];
        if moved {
          SyncWithEvents();
        }
      } else {
        calls := calls + [CloseCalled];
      }
    }

    /**
     * The awaited callback settles. On success the closure moves on (or closes);
     * on failure the error for that decision is shown and nothing moves. Either
     * way loading ends.
     */
    method CallbackSettled(succeeded: bool)
      requires Valid() && pending.Some?
      modifies this
      ensures Valid()
      ensures !loading && pending.None? && events == old(events)
      ensures !succeeded ==>
                errorMsg == (if old(pending).value.decision == Approval then ApproveFailed else RejectFailed) &&
                activeEventIndex == old(activeEventIndex) && editedEvent == old(editedEvent) && calls == old(calls)
      ensures succeeded ==> errorMsg == ""
      ensures succeeded && NextOrClose(old(pending).value.index, |old(pending).value.events|).None? ==>
                calls == old(calls) + [CloseCalled] &&
                activeEventIndex == old(activeEventIndex) && editedEvent == old(editedEvent)
      ensures succeeded && NextOrClose(old(pending).value.index, |old(pending).value.events|).Some? &&
              old(pending).value.index + 1 == old(activeEventIndex) ==>
                calls == old(calls) && activeEventIndex == old(activeEventIndex) &&
                editedEvent == old(pending).value.events[old(pending).value.index + 1]
      ensures succeeded && NextOrClose(old(pending).value.index, |old(pending).value.events|).Some? &&
              old(pending).value.index + 1 != old(activeEventIndex) ==>
                calls == old(calls) &&
                activeEventIndex == ClampIndex(old(pending).value.index + 1, |events|) &&
                editedEvent == (if |events| == 0 then blank else events[activeEventIndex])
      ensures succeeded && old(pending).value.index == old(activeEventIndex) && old(pending).value.events == events &&
              NextOrClose(old(activeEventIndex), |events|).Some? ==>
                calls == old(calls) && activeEventIndex == old(activeEventIndex) + 1 &&
                editedEvent == events[activeEventIndex]
    {
      var p := pending.value;
      if succeeded {
        pending := None;
        GoToNextOrClose(p.index, p.events);
      } else {
        pending := None;
        errorMsg := if p.decision == Approval then ApproveFailed else RejectFailed;
      }
      loading := false;
    }
  }

  /**
   * In add mode the form shows the blank template, whose title is empty, so
   * approving it before any edit only sets the title error: no callback is
   * made and nothing starts loading.
   */
  method ApproveBlankRefused(loadedAt: string, hourLater: string) returns (awaiting: bool, error: string, loading: bool, callCount: nat)
    ensures !awaiting && error == TitleRequired && !loading && callCount == 0
  {
    var sidebar := new EventSidebar([], loadedAt, hourLater);
    awaiting := sidebar.HandleApprove();
    error := sidebar.errorMsg;
    loading := sidebar.loading;
    callCount := |sidebar.calls|;
  }
}
