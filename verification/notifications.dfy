/**
  The user's advance bookings (public/notifications.js): the rows of the bookings table
  — fallback duration, rejection reason, whether a cancel button is offered — and the
  selection kept by the cancel dialog.
*/
module Notifications {
  import opened Wrappers
  import opened Text

  const MillisPerHour := 3600000

  /** A booking as the API returns it; times are milliseconds since the epoch and
      `durationHours` is `None` for a missing or null field. */
  datatype Booking = Booking(
    reservationId: nat, referenceNumber: Option<string>, locationName: string, locationCode: string,
    startMs: int, endMs: int, durationHours: Option<int>, status: string,
    rejectionReason: Option<string>)

  /** A booking can be cancelled while it is pending or confirmed. */
  predicate CancelEligible(status: string)
  {
    status == "pending" || status == "confirmed"
  }

  /** `Math.round(ms / 3600000)`: the nearest whole hour, halves rounded up. */
  function RoundHours(ms: int): (h: int)
    ensures h * MillisPerHour - MillisPerHour / 2 <= ms < h * MillisPerHour + MillisPerHour / 2
  {
    (ms + MillisPerHour / 2) / MillisPerHour
  }

  /** No other number of hours is as near: the rounding is the unique one within half an hour. */
  lemma RoundHoursUnique(ms: int, h: int)
    requires h * MillisPerHour - MillisPerHour / 2 <= ms < h * MillisPerHour + MillisPerHour / 2
    ensures RoundHours(ms) == h
  {
    var r := RoundHours(ms);
    assert (r - h) * MillisPerHour < MillisPerHour && (h - r) * MillisPerHour < MillisPerHour;
  }

  /** The duration shown: `duration_hours` when it is truthy, otherwise the rounded length of
      the booked interval. */
  function DisplayDuration(b: Booking): (hours: int)
    ensures b.durationHours.Some? && b.durationHours.value != 0 ==> hours == b.durationHours.value
    ensures b.durationHours.None? || b.durationHours.value == 0 ==> hours == RoundHours(b.endMs - b.startMs)
  {
    if b.durationHours.Some? && b.durationHours.value != 0 then b.durationHours.value
    else RoundHours(b.endMs - b.startMs)
  }

  /** A truthy optional text field: present and not empty. */
  predicate Truthy(s: Option<string>) { s.Some? && s.value != "" }

  /** A rendered row of the user's bookings table, or the single placeholder row. */
  datatype BookingRow =
    | NoBookingsRow
    | Row(reference: string, location: string, hours: int, badge: string,
          reasonNote: Option<string>, cancelButton: bool)

  function RowFor(b: Booking): (r: BookingRow)
    ensures r.Row?
    ensures r.reference == (if Truthy(b.referenceNumber) then b.referenceNumber.value else "N/A")
    ensures r.location == b.locationName + " (" + b.locationCode + ")"
    ensures r.hours == DisplayDuration(b)
    ensures r.badge == Upper(b.status)
    ensures r.reasonNote.Some? <==> Truthy(b.rejectionReason)
    ensures r.reasonNote.Some? ==> r.reasonNote.value == b.rejectionReason.value
    ensures r.cancelButton <==> CancelEligible(b.status)
  {
    Row(if Truthy(b.referenceNumber) then b.referenceNumber.value else "N/A",
        b.locationName + " (" + b.locationCode + ")",
        DisplayDuration(b),
        Upper(b.status),
        if Truthy(b.rejectionReason) then b.rejectionReason else None,
        CancelEligible(b.status))
  }

  /** `renderUserBookings`: the placeholder row alone for no bookings, one row per booking
      otherwise. */
  method RenderUserBookings(bookings: seq<Booking>) returns (rows: seq<BookingRow>)
    ensures bookings == [] ==> rows == [NoBookingsRow]
    ensures bookings != [] ==> |rows| == |bookings| && forall i :: 0 <= i < |bookings| ==> rows[i] == RowFor(bookings[i])
  {
    if |bookings| == 0 {
      return [NoBookingsRow];
    }
    rows := [];
    for i := 0 to |bookings|
      invariant |rows| == i
      invariant forall k :: 0 <= k < i ==> rows[k] == RowFor(bookings[k])
    {
      rows := rows + [RowFor(bookings[i])];
    }
  }

  /** A cancel button is offered on exactly the rows of pending or confirmed bookings. */
  lemma CancelButtonsExactly(bookings: seq<Booking>, rows: seq<BookingRow>, i: nat)
    requires |rows| == |bookings| && forall k :: 0 <= k < |bookings| ==> rows[k] == RowFor(bookings[k])
    requires i < |bookings|
    ensures rows[i].Row? && (rows[i].cancelButton <==> bookings[i].status in {"pending", "confirmed"})
  {
  }

  datatype CancelRequest = CancelRequest(bookingId: string, reason: string, userId: nat)

  datatype CancelOutcome = NothingSelected | NoUser | Send(request: CancelRequest)

  /** The cancel dialog and the booking it is about (`currentBookingToCancel`). */
  class CancelDialog {
    var selected: Option<string>
    var reference: string
    var reason: string
    var visible: bool

    /** Nothing is selected while the dialog is hidden. */
    predicate Valid()
      reads this
    {
      !visible ==> selected.None?
    }

    constructor ()
      ensures Valid() && selected.None? && !visible && reason == ""
    {
      selected := None;
      reference := "";
      reason := "";
      visible := false;
    }

    /** `openCancelModal`: records the booking and shows its reference. */
    method Open(bookingId: string, ref: string)
      modifies this
      ensures Valid()
      ensures selected == Some(bookingId) && reference == ref && visible && reason == old(reason)
    {
      selected := Some(bookingId);
      reference := ref;
      visible := true;
    }

    /** `closeCancelModal`: hides the dialog, empties the reason and forgets the booking. */
    method Close()
      modifies this
      ensures Valid()
      ensures selected.None? && reason == "" && !visible && reference == old(reference)
    {
      visible := false;
      reason := "";
      selected := None;
    }

    /** The user types a reason. */
    method EnterReason(text: string)
      requires Valid()
      modifies this
      ensures Valid()
      ensures reason == text && selected == old(selected) && visible == old(visible) && reference == old(reference)
    {
      reason := text;
    }

    /** `confirmCancel` up to the request: nothing happens without a (truthy) selection; with
        no signed-in user reading `user_id` fails; otherwise the request carries the selected
        booking, the typed reason and the user. The dialog is left as it is. */
    method ConfirmCancel(userId: Option<nat>) returns (outcome: CancelOutcome)
      requires Valid()
      ensures outcome == NothingSelected <==> !Truthy(selected)
      ensures outcome == NoUser <==> Truthy(selected) && userId.None?
      ensures outcome.Send? ==> outcome.request == CancelRequest(selected.value, reason, userId.value)
    {
      if !Truthy(selected) {
        return NothingSelected;
      }
      if userId.None? {
        return NoUser;
      }
      outcome := Send(CancelRequest(selected.value, reason, userId.value));
    }
  }

  /** Closing the dialog between two bookings means a later confirmation can never cancel the
      earlier one: it does nothing until another booking is chosen. */
  method CloseForgetsSelection(first: string, userId: Option<nat>) returns (outcome: CancelOutcome)
    ensures outcome == NothingSelected
  {
    var dialog := new CancelDialog();
    dialog.Open(first, "REF");
    dialog.Close();
    outcome := dialog.ConfirmCancel(userId);
  }
}
