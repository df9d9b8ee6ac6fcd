/** The timeline page (src/components/timeline/Timeline.tsx): the event list edits, the
    add/edit/delete password dispatch and the save status. The save request's outcome, the
    image-delete requests and `Date.now()` are parameters. */
module Timeline {
  import opened Wrappers
  import opened JsString
  import opened SharedPassword
  import opened PasswordModal

  /** `TimelineEvent`. */
  datatype Event = Event(id: string, date: string, title: string, content: string, images: seq<string>)

  /** `Omit<TimelineEvent, 'id'>`: what the form submits. */
  datatype EventData = EventData(date: string, title: string, content: string, images: seq<string>)

  /** `{ ...data, id }`. */
  function WithId(data: EventData, id: string): (e: Event)
    ensures e.id == id && e.date == data.date && e.title == data.title
    ensures e.content == data.content && e.images == data.images
  {
    Event(id, data.date, data.title, data.content, data.images)
  }

  /** `events.map(event => event.id === updated.id ? updated : event)`. */
  function ReplaceById(events: seq<Event>, updated: Event): (r: seq<Event>)
    ensures |r| == |events|
    ensures forall k :: 0 <= k < |events| ==> r[k] == if events[k].id == updated.id then updated else events[k]
  {
    if events == [] then []
    else [if events[0].id == updated.id then updated else events[0]] + ReplaceById(events[1..], updated)
  }

  /** Updating twice with the same event is the same as updating once. */
  lemma ReplaceIdempotent(events: seq<Event>, updated: Event)
    ensures ReplaceById(ReplaceById(events, updated), updated) == ReplaceById(events, updated)
  {
  }

  /** An update whose id is in no event leaves the list as it was. */
  lemma ReplaceAbsentId(events: seq<Event>, updated: Event)
    requires forall k :: 0 <= k < |events| ==> events[k].id != updated.id
    ensures ReplaceById(events, updated) == events
  {
  }

  /** `events.filter(event => event.id !== id)`. */
  function RemoveById(events: seq<Event>, id: string): (r: seq<Event>)
    ensures |r| <= |events|
  {
    if events == [] then []
    else if events[0].id == id then RemoveById(events[1..], id)
    else [events[0]] + RemoveById(events[1..], id)
  }

  /** The events with the id are gone and every other event is kept. */
  lemma {:induction false} RemoveByIdMembers(events: seq<Event>, id: string)
    ensures forall e :: e in RemoveById(events, id) <==> e in events && e.id != id
  {
    if events != [] {
      RemoveByIdMembers(events[1..], id);
      assert forall e :: e in events <==> e == events[0] || e in events[1..];
    }
  }

  /** Removal works piecewise, so the kept events stay in their order. */
  lemma {:induction false} RemoveByIdAppend(a: seq<Event>, b: seq<Event>, id: string)
    ensures RemoveById(a + b, id) == RemoveById(a, id) + RemoveById(b, id)
  {
    if a != [] {
      assert (a + b)[1..] == a[1..] + b;
      RemoveByIdAppend(a[1..], b, id);
    } else {
      assert a + b == b;
    }
  }

  /** Nothing is removed when no event has the id. */
  lemma {:induction false} RemoveAbsentId(events: seq<Event>, id: string)
    requires forall k :: 0 <= k < |events| ==> events[k].id != id
    ensures RemoveById(events, id) == events
  {
    if events != [] {
      RemoveAbsentId(events[1..], id);
    }
  }

  /** The image urls of a deleted event whose files `deleteEvent` asks the server to remove. */
  predicate IsUpload(url: string) {
    StartsWith(url, "/uploads/")
  }

  /** Whether one of the delete requests for the event's uploaded images throws; `throws`
      tells, for each url, whether its request does. */
  predicate DeleteRequestThrows(images: seq<string>, throws: string -> bool) {
    exists j :: 0 <= j < |images| && IsUpload(images[j]) && throws(images[j])
  }

  /** The uploaded images of a list, in order. */
  function Uploads(images: seq<string>): (r: seq<string>)
    ensures |r| <= |images|
  {
    if images == [] then []
    else if IsUpload(images[0]) then [images[0]] + Uploads(images[1..])
    else Uploads(images[1..])
  }

  /** The requests go to exactly the uploaded images. */
  lemma {:induction false} UploadsMembers(images: seq<string>)
    ensures forall u :: u in Uploads(images) <==> u in images && IsUpload(u)
  {
    if images != [] {
      UploadsMembers(images[1..]);
      assert forall u :: u in images <==> u == images[0] || u in images[1..];
    }
  }

  /** What the password dialog's verification leads to. */
  datatype Verified = Rejected | OpenConfirm | OpenForm

  /** `handlePasswordVerify`: only the shared password is accepted, and it opens the delete
      confirmation exactly for a delete with an event to delete, and the form otherwise. */
  function VerifyOutcome(password: string, action: Action, deleting: Option<Event>): (v: Verified)
    ensures v.Rejected? <==> !PasswordAccepted(password)
    ensures v.OpenConfirm? <==> PasswordAccepted(password) && action == Delete && deleting.Some?
  {
    if !PasswordAccepted(password) then Rejected
    else if action == Delete && deleting.Some? then OpenConfirm
    else OpenForm
  }

  /** The password dialog's token bypass calls `onVerify('')`, which this page rejects: a
      valid token does not spare the password here. */
  lemma BypassRejected(action: Action, deleting: Option<Event>)
    ensures VerifyOutcome("", action, deleting) == Rejected
  {
    EmptyPasswordRejected();
  }

  datatype SaveStatus = Idle | Saving | Success | Error

  /** The save request: it threw, or it returned `success`. */
  datatype SaveOutcome = SaveThrew | Saved(success: bool)

  /** The status `saveEvents` leaves once the request has returned. */
  function StatusAfterSave(outcome: SaveOutcome): (s: SaveStatus)
    ensures s == Success <==> outcome == Saved(true)
    ensures s != Success ==> s == Error
  {
    match outcome
    case SaveThrew => Error
    case Saved(success) => if success then Success else Error
  }

  class TimelinePage {
    var events: seq<Event>
    var isFormOpen: bool
    var isPasswordModalOpen: bool
    var currentAction: Action
    var editingEvent: Option<Event>
    var deletingEvent: Option<Event>
    var saveStatus: SaveStatus
    var isDeleteConfirmOpen: bool

    /** At most one of the event being edited and the event being deleted is set. */
    ghost predicate Valid()
      reads this
    {
      !(editingEvent.Some? && deletingEvent.Some?)
    }

    constructor()
      ensures events == [] && !isFormOpen && !isPasswordModalOpen && !isDeleteConfirmOpen
      ensures currentAction == Add && editingEvent.None? && deletingEvent.None? && saveStatus == Idle
      ensures Valid()
    {
      events := [];
      isFormOpen := false;
      isPasswordModalOpen := false;
      currentAction := Add;
      editingEvent := None;
      deletingEvent := None;
      saveStatus := Idle;
      isDeleteConfirmOpen := false;
    }

    /** `loadEvents`: the loaded list, or `None` when loading threw, which keeps the list. */
    method LoadEvents(loaded: Option<seq<Event>>)
      modifies this`events
      ensures events == (if loaded.Some? then loaded.value else old(events))
    {
      if loaded.Some? {
        events := loaded.value;
      }
    }

    /** `saveEvents(updated)` once its request has returned; the status is `saving` while it
        runs. Only the status changes. */
    method SaveEvents(updated: seq<Event>, outcome: SaveOutcome)
      modifies this`saveStatus
      ensures saveStatus == StatusAfterSave(outcome)
    {
      saveStatus := Saving;
      match outcome
      case SaveThrew =>
        saveStatus := Error;
      case Saved(success) =>
        saveStatus := if success then Success else Error;
    }

    /** The three-second timer that puts the status back to idle. */
    method ResetSaveStatus()
      modifies this`saveStatus
      ensures saveStatus == Idle
    {
      saveStatus := Idle;
    }

    method HandleAddClick()
      modifies this`currentAction, this`editingEvent, this`deletingEvent, this`isPasswordModalOpen
      ensures currentAction == Add && editingEvent.None? && deletingEvent.None? && isPasswordModalOpen
      ensures Valid()
    {
      currentAction := Add;
      editingEvent := None;
      deletingEvent := None;
      isPasswordModalOpen := true;
    }

    method HandleEditClick(event: Event)
      modifies this`currentAction, this`editingEvent, this`deletingEvent, this`isPasswordModalOpen
      ensures currentAction == Edit && editingEvent == Some(event) && deletingEvent.None? && isPasswordModalOpen
      ensures Valid()
    {
      currentAction := Edit;
      editingEvent := Some(event);
      deletingEvent := None;
      isPasswordModalOpen := true;
    }

    method HandleDeleteClick(event: Event)
      modifies this`currentAction, this`editingEvent, this`deletingEvent, this`isPasswordModalOpen
      ensures currentAction == Delete && deletingEvent == Some(event) && editingEvent.None? && isPasswordModalOpen
      ensures Valid()
    {
      currentAction := Delete;
      deletingEvent := Some(event);
      editingEvent := None;
      isPasswordModalOpen := true;
    }

    /** The password dialog's `onCancel`. */
    method CancelPassword()
      modifies this`isPasswordModalOpen
      ensures !isPasswordModalOpen
    {
      isPasswordModalOpen := false;
    }

    /** The delete confirmation's cancel button: the event stays marked for deletion. */
    method CancelDelete()
      modifies this`isDeleteConfirmOpen
      ensures !isDeleteConfirmOpen
    {
      isDeleteConfirmOpen := false;
    }

    /** The form's `onCancel`: the edited event stays selected. */
    method CancelForm()
      modifies this`isFormOpen
      ensures !isFormOpen
    {
      isFormOpen := false;
    }

    /** `handlePasswordVerify(password)`: a wrong password changes nothing (it only alerts). */
    method HandlePasswordVerify(password: string)
      modifies this`isPasswordModalOpen, this`isDeleteConfirmOpen, this`isFormOpen
      ensures var v := VerifyOutcome(password, currentAction, deletingEvent);
        && (v.Rejected? ==> isPasswordModalOpen == old(isPasswordModalOpen) && isFormOpen == old(isFormOpen) &&
                            isDeleteConfirmOpen == old(isDeleteConfirmOpen))
        && (!v.Rejected? ==> !isPasswordModalOpen)
        && (v.OpenConfirm? ==> isDeleteConfirmOpen && isFormOpen == old(isFormOpen))
        && (v.OpenForm? ==> isFormOpen && isDeleteConfirmOpen == old(isDeleteConfirmOpen))
    {
      if PasswordAccepted(password) {
        isPasswordModalOpen := false;
        if currentAction == Delete && deletingEvent.Some? {
          isDeleteConfirmOpen := true;
        } else {
          isFormOpen := true;
        }
      }
    }

    /** `addEvent(data)` at time `now`: the new event, with id `now.toString()`, goes at the
        end. */
    method AddEvent(data: EventData, now: nat, outcome: SaveOutcome)
      modifies this`events, this`isFormOpen, this`saveStatus
      ensures events == old(events) + [WithId(data, NatToString(now))]
      ensures !isFormOpen && saveStatus == StatusAfterSave(outcome)
    {
      var updatedEvents := events + [WithId(data, NatToString(now))];
      events := updatedEvents;
      isFormOpen := false;
      SaveEvents(updatedEvents, outcome);
    }

    /** `updateEvent(updated)`. */
    method UpdateEvent(updated: Event, outcome: SaveOutcome)
      modifies this`events, this`isFormOpen, this`editingEvent, this`saveStatus
      ensures events == ReplaceById(old(events), updated)
      ensures !isFormOpen && editingEvent.None? && saveStatus == StatusAfterSave(outcome)
      ensures Valid()
    {
      var updatedEvents := ReplaceById(events, updated);
      events := updatedEvents;
      isFormOpen := false;
      editingEvent := None;
      SaveEvents(updatedEvents, outcome);
    }

    /** `deleteEvent()`. The delete requests go out one by one for the uploaded images, in
        order; `sent` lists them. Without an event to delete nothing happens; if a request
        throws, the catch leaves every field as it was. Otherwise the events with the deleted
        event's id are removed and the list is saved. */
    method DeleteEvent(throws: string -> bool, outcome: SaveOutcome) returns (sent: seq<string>)
      modifies this`events, this`isDeleteConfirmOpen, this`deletingEvent, this`saveStatus
      ensures old(deletingEvent).None? ==> sent == []
      ensures old(deletingEvent).None? || DeleteRequestThrows(old(deletingEvent).value.images, throws) ==>
        events == old(events) && deletingEvent == old(deletingEvent) &&
        isDeleteConfirmOpen == old(isDeleteConfirmOpen) && saveStatus == old(saveStatus)
      ensures old(deletingEvent).Some? && !DeleteRequestThrows(old(deletingEvent).value.images, throws) ==>
        sent == Uploads(old(deletingEvent).value.images) &&
        events == RemoveById(old(events), old(deletingEvent).value.id) &&
        deletingEvent.None? && !isDeleteConfirmOpen && saveStatus == StatusAfterSave(outcome)
    {
      sent := [];
      if deletingEvent.None? {
        return;
      }
      var threw;
      sent, threw := SendDeleteRequests(deletingEvent.value.images, throws);
      if threw {
        return;
      }
      var updatedEvents := RemoveById(events, deletingEvent.value.id);
      events := updatedEvents;
      isDeleteConfirmOpen := false;
      deletingEvent := None;
      SaveEvents(updatedEvents, outcome);
    }

    /** `handleFormSubmit(data)`: adds on `add`, updates the edited event (keeping its id) on
        `edit`, and does nothing otherwise. */
    method HandleFormSubmit(data: EventData, now: nat, outcome: SaveOutcome)
      modifies this`events, this`isFormOpen, this`editingEvent, this`saveStatus
      ensures old(currentAction) == Add ==>
        events == old(events) + [WithId(data, NatToString(now))] &&
        !isFormOpen && saveStatus == StatusAfterSave(outcome) && editingEvent == old(editingEvent)
      ensures old(currentAction) == Edit && old(editingEvent).Some? ==>
        events == ReplaceById(old(events), WithId(data, old(editingEvent).value.id)) &&
        !isFormOpen && saveStatus == StatusAfterSave(outcome) && editingEvent.None?
      ensures !(old(currentAction) == Add || (old(currentAction) == Edit && old(editingEvent).Some?)) ==>
        events == old(events) && isFormOpen == old(isFormOpen) && saveStatus == old(saveStatus) &&
        editingEvent == old(editingEvent)
      ensures old(Valid()) ==> Valid()
    {
      if currentAction == Add {
        AddEvent(data, now, outcome);
      } else if currentAction == Edit && editingEvent.Some? {
        UpdateEvent(WithId(data, editingEvent.value.id), outcome);
      }
    }
  }

  /** The delete requests of `deleteEvent`'s loop, in order, stopping at the first that
      throws; `threw` tells whether one did. */
  method SendDeleteRequests(images: seq<string>, throws: string -> bool) returns (sent: seq<string>, threw: bool)
    ensures threw <==> DeleteRequestThrows(images, throws)
    ensures !threw ==> sent == Uploads(images)
    ensures threw ==> |sent| > 0 && throws(sent[|sent| - 1]) && sent <= Uploads(images)
    ensures forall k :: 0 <= k < |sent| - 1 ==> !throws(sent[k])
  {
    sent := [];
    var i := 0;
    while i < |images|
      invariant 0 <= i <= |images|
      invariant sent == Uploads(images[..i])
      invariant forall j :: 0 <= j < i ==> !(IsUpload(images[j]) && throws(images[j]))
      invariant forall k :: 0 <= k < |sent| ==> !throws(sent[k])
    {
      UploadsStep(images, i);
      if IsUpload(images[i]) {
        sent := sent + [images[i]];
        if throws(images[i]) {
          UploadsPrefix(images, i + 1);
          return sent, true;
        }
      }
      i := i + 1;
    }
    assert images[..|images|] == images;
    return sent, false;
  }

  /** The uploads of a prefix are a prefix of the uploads. */
  lemma UploadsPrefix(images: seq<string>, i: nat)
    requires i <= |images|
    ensures Uploads(images[..i]) <= Uploads(images)
  {
    var front, back := images[..i], images[i..];
    assert front + back == images;
    UploadsAppend(front, back);
    var u, v := Uploads(front), Uploads(back);
    assert (u + v)[..|u|] == u;
  }

  lemma UploadsStep(images: seq<string>, i: nat)
    requires i < |images|
    ensures Uploads(images[..i + 1]) == Uploads(images[..i]) + (if IsUpload(images[i]) then [images[i]] else [])
  {
    UploadsAppend(images[..i], [images[i]]);
    assert images[..i + 1] == images[..i] + [images[i]];
  }

  lemma {:induction false} UploadsAppend(a: seq<string>, b: seq<string>)
    ensures Uploads(a + b) == Uploads(a) + Uploads(b)
  {
    if a != [] {
      assert (a + b)[1..] == a[1..] + b;
      UploadsAppend(a[1..], b);
    } else {
      assert a + b == b;
    }
  }

  /** Events added at different instants get different ids. */
  lemma DistinctInstantsDistinctIds(a: EventData, b: EventData, t: nat, u: nat)
    requires t != u
    ensures WithId(a, NatToString(t)).id != WithId(b, NatToString(u)).id
  {
    NatToStringInjective(t, u);
  }

  /** An added event is the last one, and the events before it are the old ones. */
  lemma AddedAtEnd(events: seq<Event>, data: EventData, now: nat)
    ensures var r := events + [WithId(data, NatToString(now))];
      |r| == |events| + 1 && r[..|events|] == events && r[|events|].id == NatToString(now)
  {
  }
}
