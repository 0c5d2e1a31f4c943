/**
  The administrator's view of advance bookings (public/admin-notifications.js): the page
  gate, the rows of the bookings table — who processed a booking, accept and reject
  buttons for pending ones, the rejection reason otherwise — and the reject dialog.
*/
module AdminNotifications {
  import opened Wrappers
  import opened Text
  import Notifications

  /** Where the page sends a visitor on load: guests to the login page, non-administrators
      to the main page, administrators nowhere. */
  function AdminGate(userType: Option<string>): (redirect: Option<string>)
    ensures userType.None? ==> redirect == Some("login.html")
    ensures userType.Some? ==> (redirect.None? <==> userType.value == "admin")
    ensures userType.Some? && userType.value != "admin" ==> redirect == Some("main.html")
  {
    if userType.None? then Some("login.html")
    else if userType.value != "admin" then Some("main.html")
    else None
  }

  /** A booking as the administrator's list returns it: the user's booking fields plus the
      user, the vehicle and the administrator who processed it. */
  datatype AdminBooking = AdminBooking(
    booking: Notifications.Booking, userName: string, licensePlate: string, processedByName: Option<string>)

  /** The last cell of a row. */
  datatype ActionsCell = AcceptReject(bookingId: nat) | ReasonNote(reason: string) | NoActions

  function ActionsFor(b: Notifications.Booking): (cell: ActionsCell)
    ensures cell.AcceptReject? <==> b.status == "pending"
    ensures cell.AcceptReject? ==> cell.bookingId == b.reservationId
    ensures cell.ReasonNote? <==> b.status != "pending" && Notifications.Truthy(b.rejectionReason)
    ensures cell.ReasonNote? ==> cell.reason == b.rejectionReason.value
  {
    if b.status == "pending" then AcceptReject(b.reservationId)
    else if Notifications.Truthy(b.rejectionReason) then ReasonNote(b.rejectionReason.value)
    else NoActions
  }

  datatype AdminRow =
    | NoBookingsRow
    | Row(reference: string, userName: string, licensePlate: string, location: string, hours: int,
          badge: string, processedBy: Option<string>, actions: ActionsCell)

  function RowFor(a: AdminBooking): (r: AdminRow)
    ensures r.Row?
    ensures r.reference == Notifications.RowFor(a.booking).reference
    ensures r.userName == a.userName && r.licensePlate == a.licensePlate
    ensures r.location == Notifications.RowFor(a.booking).location
    ensures r.hours == Notifications.DisplayDuration(a.booking)
    ensures r.processedBy.Some? <==> Notifications.Truthy(a.processedByName)
    ensures r.processedBy.Some? ==> r.processedBy.value == a.processedByName.value
    ensures r.actions == ActionsFor(a.booking)
    ensures r.badge == Upper(a.booking.status)
  {
    var b := a.booking;
    Row(if Notifications.Truthy(b.referenceNumber) then b.referenceNumber.value else "N/A",
        a.userName, a.licensePlate, b.locationName + " (" + b.locationCode + ")",
        Notifications.DisplayDuration(b), Upper(b.status),
        if Notifications.Truthy(a.processedByName) then a.processedByName else None,
        ActionsFor(b))
  }

  /** `renderBookings`: the placeholder row alone for no bookings, one row per booking otherwise. */
  method RenderBookings(bookings: seq<AdminBooking>) returns (rows: seq<AdminRow>)
    ensures bookings == [] ==> rows == [NoBookingsRow]
    ensures bookings != [] ==> |rows| == |bookings| && forall i :: 0 <= i < |bookings| ==> rows[i] == RowFor(bookings[i])
  {
    if |bookings| == 0 {
      return [NoBookingsRow];
    }
    rows := [];
    for i := 0 to |bookings|
      invariant |rows| == i
      invariant forall k :: 0 <= k < i ==> rows[k] == RowFor(bookings[k])
    {
      rows := rows + [RowFor(bookings[i])];
    }
  }

  /** An administrator is offered accept and reject on exactly the bookings the user could
      still cancel that are not yet confirmed, and never on one the user can no longer cancel. */
  lemma AdminActionsWithinUserCancellable(a: AdminBooking)
    ensures RowFor(a).actions.AcceptReject? ==> Notifications.RowFor(a.booking).cancelButton
    ensures RowFor(a).actions.AcceptReject? <==>
      Notifications.RowFor(a.booking).cancelButton && a.booking.status != "confirmed"
  {
  }

  datatype RejectRequest = RejectRequest(bookingId: string, reason: string, adminId: nat)

  datatype RejectOutcome = NothingSelected | NotLoggedIn | Send(request: RejectRequest)

  /** The reject dialog and the booking it is about (`currentBookingToReject`). */
  class RejectDialog {
    var selected: Option<string>
    var reference: string
    var reason: string
    var visible: bool

    /** Nothing is selected while the dialog is hidden. */
    predicate Valid()
      reads this
    {
      !visible ==> selected.None?
    }

    constructor ()
      ensures Valid() && selected.None? && !visible && reason == ""
    {
      selected := None;
      reference := "";
      reason := "";
      visible := false;
    }

    /** `openRejectModal`. */
    method Open(bookingId: string, ref: string)
      modifies this
      ensures Valid()
      ensures selected == Some(bookingId) && reference == ref && visible && reason == old(reason)
    {
      selected := Some(bookingId);
      reference := ref;
      visible := true;
    }

    /** `closeRejectModal`. */
    method Close()
      modifies this
      ensures Valid()
      ensures selected.None? && reason == "" && !visible && reference == old(reference)
    {
      visible := false;
      reason := "";
      selected := None;
    }

    method EnterReason(text: string)
      requires Valid()
      modifies this
      ensures Valid()
      ensures reason == text && selected == old(selected) && visible == old(visible) && reference == old(reference)
    {
      reason := text;
    }

    /** `confirmReject` up to the request: nothing without a (truthy) selection, a refusal
        without a signed-in user, and otherwise a request with the typed reason — possibly
        empty — and the administrator's id. */
    method ConfirmReject(adminId: Option<nat>) returns (outcome: RejectOutcome)
      requires Valid()
      ensures outcome == NothingSelected <==> !Notifications.Truthy(selected)
      ensures outcome == NotLoggedIn <==> Notifications.Truthy(selected) && adminId.None?
      ensures outcome.Send? ==> outcome.request == RejectRequest(selected.value, reason, adminId.value)
    {
      if !Notifications.Truthy(selected) {
        return NothingSelected;
      }
      if adminId.None? {
        return NotLoggedIn;
      }
      outcome := Send(RejectRequest(selected.value, reason, adminId.value));
    }
  }

  /** A reason is not required: a dialog confirmed without typing anything sends the empty
      reason. */
  method RejectWithoutReason(bookingId: string, adminId: nat) returns (outcome: RejectOutcome)
    requires bookingId != ""
    ensures outcome == Send(RejectRequest(bookingId, "", adminId))
  {
    var dialog := new RejectDialog();
    dialog.Open(bookingId, "REF");
    outcome := dialog.ConfirmReject(Some(adminId));
  }

  datatype AcceptRequest = AcceptRequest(bookingId: string, adminId: nat)

  /** `confirmAccept`: refused without a signed-in user. */
  function ConfirmAccept(bookingId: string, adminId: Option<nat>): (r: Option<AcceptRequest>)
    ensures r.Some? <==> adminId.Some?
    ensures r.Some? ==> r.value.bookingId == bookingId && r.value.adminId == adminId.value
  {
    if adminId.None? then None else Some(AcceptRequest(bookingId, adminId.value))
  }
}
