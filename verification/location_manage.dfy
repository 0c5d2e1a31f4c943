/**
  The administrator's location page (public/location-manage.js): how a location's
  `disabled` flag and `disabled_reason` become a status in the dropdown and in the
  status table, the status line of the selected location, the body of a status
  change request, and the checks on the new-location and space-update forms.
*/
module LocationManage {
  import opened Wrappers
  import opened Text

  /** A location as the API returns it. `disabledReason` is `None` for `null`. */
  datatype Location = Location(
    locationId: nat, name: string, code: string, totalSpaces: int,
    disabled: bool, disabledReason: Option<string>)

  datatype LocationStatus = Open | Closed | Maintenance | EventOnly

  /** `reason?.includes(word)`: false for a missing reason; a case-sensitive substring test. */
  predicate ReasonIncludes(reason: Option<string>, word: string)
  {
    reason.Some? && Contains(reason.value, word)
  }

  /** The `data-status` names. */
  function StatusName(s: LocationStatus): string
  {
    match s
    case Open => "open"
    case Closed => "closed"
    case Maintenance => "maintenance"
    case EventOnly => "event"
  }

  /** The label shown for a status. */
  function StatusLabel(s: LocationStatus): string
  {
    match s
    case Open => "Open"
    case Closed => "Closed"
    case Maintenance => "Maintenance"
    case EventOnly => "Event Only"
  }

  // ---------------------------------------------------------------------------
  // Dropdown
  // ---------------------------------------------------------------------------

  /** One entry of the location select: the "Select location" placeholder (empty value) or
      a location with its `data-status` and `data-reason` (`None` when the attribute is unset). */
  datatype SelectOption =
    | Placeholder
    | LocationOption(value: nat, text: string, status: LocationStatus, reason: Option<string>)

  /** The option `populateLocationDropdown` builds for a location. */
  function OptionFor(loc: Location): (o: SelectOption)
    ensures o.LocationOption? && o.value == loc.locationId
    ensures o.status == Maintenance <==> loc.disabled && ReasonIncludes(loc.disabledReason, "Maintenance")
    ensures o.status == Closed <==> loc.disabled && !ReasonIncludes(loc.disabledReason, "Maintenance")
    ensures o.status == EventOnly <==> !loc.disabled && ReasonIncludes(loc.disabledReason, "Event")
    ensures o.status == Open <==> !loc.disabled && !ReasonIncludes(loc.disabledReason, "Event")
    ensures o.reason.Some? <==> o.status != Open
  {
    var text := loc.name + " (" + loc.code + ") - " + IntToString(loc.totalSpaces) + " spaces";
    if loc.disabled then
      var status := if ReasonIncludes(loc.disabledReason, "Maintenance") then Maintenance else Closed;
      LocationOption(loc.locationId, text, status, Some(loc.disabledReason.GetOr("")))
    else if ReasonIncludes(loc.disabledReason, "Event") then
      LocationOption(loc.locationId, text, EventOnly, loc.disabledReason)
    else
      LocationOption(loc.locationId, text, Open, None)
  }

  /** `populateLocationDropdown`: the placeholder, then one option per location in order. */
  method PopulateDropdown(locations: seq<Location>) returns (options: seq<SelectOption>)
    ensures |options| == |locations| + 1 && options[0] == Placeholder
    ensures forall i :: 0 <= i < |locations| ==> options[i + 1] == OptionFor(locations[i])
  {
    options := [Placeholder];
    var i := 0;
    while i < |locations|
      invariant 0 <= i <= |locations|
      invariant |options| == i + 1 && options[0] == Placeholder
      invariant forall k :: 0 <= k < i ==> options[k + 1] == OptionFor(locations[k])
    {
      options := options + [OptionFor(locations[i])];
      i := i + 1;
    }
  }

  // ---------------------------------------------------------------------------
  // Status table
  // ---------------------------------------------------------------------------

  datatype StatusRow = StatusRow(statusClass: string, statusText: string, restrictions: string)

  /** The status cells `updateStatusTable` fills for a location. */
  function RowFor(loc: Location): (r: StatusRow)
    ensures loc.disabled ==> r.restrictions == (if loc.disabledReason.GetOr("") == "" then "Administrative closure" else loc.disabledReason.value)
    ensures !loc.disabled && ReasonIncludes(loc.disabledReason, "Event") ==> r.restrictions == loc.disabledReason.value
    ensures r.statusClass == "status-open" ==> r.restrictions == "None"
  {
    var statusClass, statusText, restrictions := "status-open", "Open", "None";
    if loc.disabled then
      var isMaintenance := ReasonIncludes(loc.disabledReason, "Maintenance");
      var reason := loc.disabledReason.GetOr("");
      StatusRow(
        if isMaintenance then "status-maintenance" else "status-closed",
        if isMaintenance then "Maintenance" else "Closed",
        if reason == "" then "Administrative closure" else reason)
    else if ReasonIncludes(loc.disabledReason, "Event") then
      StatusRow("status-event", "Event Only", loc.disabledReason.value)
    else
      StatusRow(statusClass, statusText, restrictions)
  }

  /** `updateStatusTable`: one row per location, in order. */
  method UpdateStatusTable(statusData: seq<Location>) returns (rows: seq<StatusRow>)
    ensures |rows| == |statusData|
    ensures forall i :: 0 <= i < |statusData| ==> rows[i] == RowFor(statusData[i])
  {
    rows := [];
    var i := 0;
    while i < |statusData|
      invariant 0 <= i <= |statusData| && |rows| == i
      invariant forall k :: 0 <= k < i ==> rows[k] == RowFor(statusData[k])
    {
      rows := rows + [RowFor(statusData[i])];
      i := i + 1;
    }
  }

  /** The table and the dropdown classify every location alike, and the table's restriction
      is the reason the option carries (with its defaults). */
  lemma TableAgreesWithDropdown(loc: Location)
    ensures RowFor(loc).statusClass == "status-" + StatusName(OptionFor(loc).status)
    ensures RowFor(loc).statusText == StatusLabel(OptionFor(loc).status)
    ensures OptionFor(loc).status == Open ==> RowFor(loc).restrictions == "None"
    ensures OptionFor(loc).status == EventOnly ==> RowFor(loc).restrictions == OptionFor(loc).reason.value
    ensures OptionFor(loc).status in {Closed, Maintenance} ==>
      RowFor(loc).restrictions == if OptionFor(loc).reason.value == "" then "Administrative closure" else OptionFor(loc).reason.value
  {
  }

  // ---------------------------------------------------------------------------
  // Selected location
  // ---------------------------------------------------------------------------

  datatype StatusLine = StatusLine(text: string, className: string)

  /** `updateSelectedLocationStatus` for the selected option. */
  function SelectedStatus(selected: SelectOption): (r: StatusLine)
    ensures selected.Placeholder? ==> r == StatusLine("Status: Not selected", "status-unknown")
    ensures selected.LocationOption? ==> r.className == "status-" + StatusName(selected.status)
    ensures selected.LocationOption? ==>
      r.text == "Status: " + StatusLabel(selected.status)
        + (if selected.reason.GetOr("") != "" then " (" + selected.reason.value + ")" else "")
  {
    match selected
    case Placeholder => StatusLine("Status: Not selected", "status-unknown")
    case LocationOption(_, _, status, reasonAttr) =>
      var reason := reasonAttr.GetOr("");
      var base := "Status: " + StatusLabel(status);
      StatusLine(if reason != "" then base + " (" + reason + ")" else base, "status-" + StatusName(status))
  }

  /** For a location's option the status line has the table's class, starts with the table's
      text and adds the reason in brackets exactly when the option carries a non-empty one. */
  lemma SelectedMatchesTable(loc: Location)
    ensures SelectedStatus(OptionFor(loc)).className == RowFor(loc).statusClass
    ensures StartsWith(SelectedStatus(OptionFor(loc)).text, "Status: " + RowFor(loc).statusText)
    ensures SelectedStatus(OptionFor(loc)).text == "Status: " + RowFor(loc).statusText
      <==> OptionFor(loc).reason.GetOr("") == ""
    ensures OptionFor(loc).reason.GetOr("") != "" ==>
      SelectedStatus(OptionFor(loc)).text
        == "Status: " + RowFor(loc).statusText + " (" + OptionFor(loc).reason.value + ")"
  {
    TableAgreesWithDropdown(loc);
    var base := "Status: " + RowFor(loc).statusText;
    var t := SelectedStatus(OptionFor(loc)).text;
    assert t[..|base|] == base;
    if OptionFor(loc).reason.GetOr("") != "" {
      assert |t| > |base|;
    }
  }

  // ---------------------------------------------------------------------------
  // Status change request
  // ---------------------------------------------------------------------------

  datatype Action = CloseAction | EventAction | OpenAction | MaintenanceAction

  /** The JSON body: the action and, except for reopening, a reason and notes. */
  datatype StatusRequest = StatusRequest(action: Action, reason: Option<string>, notes: Option<string>)

  datatype ActionOutcome = NoLocation | Cancelled | MissingReason | Send(body: StatusRequest)

  /** `handleLocationAction(action)` with the selected value, the answer to the confirmation
      dialog and the three form fields. */
  method HandleLocationAction(action: Action, locationId: string, confirmed: bool,
                              reason: string, notes: string, eventName: string)
    returns (outcome: ActionOutcome)
    ensures locationId == "" ==> outcome == NoLocation
    ensures locationId != "" && !confirmed ==> outcome == Cancelled
    ensures outcome == MissingReason <==> locationId != "" && confirmed && action != OpenAction && reason == ""
    ensures outcome.Send? ==> outcome.body.action == action
    ensures outcome.Send? && action == EventAction ==>
      outcome.body.reason == Some("Event")
      && outcome.body.notes == Some(if eventName != "" then "Event: " + eventName + ". " + notes else notes)
    ensures outcome.Send? && action == MaintenanceAction ==>
      outcome.body.reason == Some("Maintenance")
      && outcome.body.notes == Some(if notes != "" then notes else "Scheduled maintenance")
    ensures outcome.Send? && action == CloseAction ==>
      outcome.body.reason == Some(reason) && outcome.body.notes == Some(notes)
    ensures outcome.Send? && action == OpenAction ==> outcome.body == StatusRequest(OpenAction, None, None)
    ensures locationId != "" && confirmed && (action == OpenAction || reason != "") ==> outcome.Send?
  {
    if locationId == "" {
      return NoLocation;
    }
    var reasonRequired := action != OpenAction;
    if !confirmed {
      return Cancelled;
    }
    if reasonRequired && reason == "" && action != OpenAction {
      return MissingReason;
    }
    var body := StatusRequest(action, None, None);
    if action == EventAction {
      body := body.(reason := Some("Event"));
      body := body.(notes := Some(if eventName != "" then "Event: " + eventName + ". " + notes else notes));
    } else if action == MaintenanceAction {
      body := body.(reason := Some("Maintenance"));
      body := body.(notes := Some(if notes != "" then notes else "Scheduled maintenance"));
    } else if action == CloseAction {
      body := body.(reason := Some(if reason != "" then reason else "Administrative closure"));
      body := body.(notes := Some(notes));
    }
    outcome := Send(body);
  }

  // ---------------------------------------------------------------------------
  // Forms
  // ---------------------------------------------------------------------------

  datatype NewLocation = NewLocation(name: string, code: string, totalSpaces: int, hourlyRate: real)

  datatype NewLocationError = MissingFields | BadCodeLength | TooFewSpaces | RateTooLow

  /** The first check of `addNewLocation`: name and code are non-empty once trimmed and both
      numbers parsed. */
  predicate NewLocationFilled(nameInput: string, codeInput: string, spaces: Option<int>, rate: Option<real>)
  {
    Trim(nameInput) != "" && Trim(codeInput) != "" && spaces.Some? && rate.Some?
  }

  /** `addNewLocation` before the request: `parseInt`/`parseFloat` results are `None` for NaN. */
  function ValidateNewLocation(nameInput: string, codeInput: string, spaces: Option<int>, rate: Option<real>)
    : (r: Result<NewLocation, NewLocationError>)
    ensures r.Ok? <==>
      Trim(nameInput) != "" && |Trim(codeInput)| == 4 && spaces.Some? && spaces.value >= 1
      && rate.Some? && rate.value >= 0.5
    ensures r.Ok? ==> r.value == NewLocation(Trim(nameInput), Upper(Trim(codeInput)), spaces.value, rate.value)
    ensures r == Err(MissingFields) <==> !NewLocationFilled(nameInput, codeInput, spaces, rate)
    ensures r == Err(BadCodeLength) <==>
      NewLocationFilled(nameInput, codeInput, spaces, rate) && |Trim(codeInput)| != 4
    ensures r == Err(TooFewSpaces) <==>
      NewLocationFilled(nameInput, codeInput, spaces, rate) && |Trim(codeInput)| == 4 && spaces.value < 1
    ensures r == Err(RateTooLow) <==>
      NewLocationFilled(nameInput, codeInput, spaces, rate) && |Trim(codeInput)| == 4 && spaces.value >= 1
      && rate.value < 0.5
  {
    var name := Trim(nameInput);
    var code := Upper(Trim(codeInput));
    if name == "" || code == "" || spaces.None? || rate.None? then Err(MissingFields)
    else if |code| != 4 then Err(BadCodeLength)
    else if spaces.value < 1 then Err(TooFewSpaces)
    else if rate.value < 0.5 then Err(RateTooLow)
    else Ok(NewLocation(name, code, spaces.value, rate.value))
  }

  datatype SpaceUpdate = SpaceUpdate(add: int, remove: int)

  datatype SpaceUpdateError = NoLocationSelected | NothingToChange

  /** `updateParkingSpaces` before the request: a field that does not parse, like one that
      parses to 0, counts as 0; negative numbers are sent as they are. */
  function ValidateSpaceUpdate(locationId: string, add: Option<int>, remove: Option<int>)
    : (r: Result<SpaceUpdate, SpaceUpdateError>)
    ensures r == Err(NoLocationSelected) <==> locationId == ""
    ensures locationId != "" && (add.GetOr(0) != 0 || remove.GetOr(0) != 0) ==>
      r == Ok(SpaceUpdate(add.GetOr(0), remove.GetOr(0)))
    ensures r == Err(NothingToChange) <==> locationId != "" && add.GetOr(0) == 0 && remove.GetOr(0) == 0
    ensures r.Ok? ==> r.value == SpaceUpdate(add.GetOr(0), remove.GetOr(0)) && (r.value.add != 0 || r.value.remove != 0)
  {
    if locationId == "" then Err(NoLocationSelected)
    else
      var spacesToAdd := add.GetOr(0);
      var spacesToRemove := remove.GetOr(0);
      if spacesToAdd == 0 && spacesToRemove == 0 then Err(NothingToChange)
      else Ok(SpaceUpdate(spacesToAdd, spacesToRemove))
  }
}
