# Parking web app client logic in Dafny

This project models the browser-side logic of a university parking web app. The app is
made of plain JavaScript pages under `public/`. Each page is one Dafny module (one file):

- `Dashboard` (`public/dashboard.js`): the card-field formatters; the checks on a session extension; the countdown timer and its colour bands; the active-session cache.
- `AdminManage` (`public/admin-manage.js`): user search; pagination; the pager buttons; column sorting with a direction toggle.
- `VehicleManage` (`public/vManage.js`): plate sanitising, normalising and validation; the four-vehicle limit; durations; CSV export; the history filter.
- `LocationManage` (`public/location-manage.js`): how a location's flags become a status (dropdown, status table, status line); the status-change request; the new-location and space-update checks.
- `Payment` (`public/payment.js`): the discount tiers; the discount worked back from the total; the hourly rate; the duration label; the card field check.
- `Registration` (`public/registration-script.js`): the password flags; the ordered form checks; the licence plate captured by the pop-up.
- `Contact` (`public/contact-script.js`): the feedback checks, including the e-mail pattern.
- `ResetPassword` (`public/reset-password.js`): the token gate; the new-password checks; the single error element.
- `Auth` (`public/auth.js`): the current page; the public-route guard; the navigation links and the active one; the page title; the auth headers; logout.
- `Notifications` (`public/notifications.js`): the user's booking rows (fallback duration, reason, cancel button); the cancel dialog's selection.
- `AdminNotifications` (`public/admin-notifications.js`): the admin gate; the admin booking rows (accept/reject or reason); the reject dialog; accepting a booking.
- `Account` (`public/account.js`): the profile fields shown and saved; the picture chooser's type and size checks.

Two shared modules hold what the pages have in common:

- `Wrappers` defines `Option` and `Result`.
- `Text` holds the JavaScript string and number behaviour the pages rely on, spelled out:
  - `trim`, `\s`, `toLowerCase`/`toUpperCase` on ASCII;
  - `includes`/`indexOf`;
  - `replace` with a string pattern, which replaces the first occurrence only;
  - `split`, `join` and `slice` with negative indices;
  - string `<`;
  - `%`, which truncates toward zero;
  - decimal formatting and `padStart(2, '0')`.

How JavaScript values are represented:

- **Missing and NaN values.** `null`/`undefined` fields become `Option` values. A value that `parseInt`/`parseFloat` turns into NaN is `None`.
- **Truthiness.** It is written out where the code relies on it: an empty string and `0` are falsy.
- **Times** are integer milliseconds.
- **Money** is an exact `real`.

State that a page changes in place is a `class` with `modifies` clauses:

- the countdown;
- the session cache;
- the user table;
- the add-vehicle button;
- the history table, whose row visibility is an `array`;
- the registration plate pop-up;
- the reset form;
- the cancel and reject dialogs;
- the picture chooser;
- local storage.

Everything else is a function over values. Loops in the code are methods with loop invariants:

- the card formatter;
- the dropdown and status-table builders;
- the booking-row renderers;
- the history filter.

Each such method is proved equal to a function, and the function's properties are proved as lemmas.

## Model

| member | source | states |
|---|---|---|
| `Dashboard.FormatCardNumber` | public/dashboard.js:360-370 | the loop's output is `CardNumberText(input)`: the first 16 digits typed, in groups of four separated by one space |
| `Dashboard.CardNumberDigits` | public/dashboard.js:361-366 | removing spaces (or non-digits) from the formatted number gives back exactly the first 16 digits typed, so no digit is lost, added or reordered |
| `Dashboard.CardNumberLayout` | public/dashboard.js:364-366 | the formatted number has at most 19 characters, begins and ends with a digit, and has a space exactly at the positions 4, 9 and 14 (k mod 5 = 4) |
| `Dashboard.CardNumberIdempotent` | public/dashboard.js:360-370 | formatting an already formatted number leaves it unchanged |
| `Dashboard.ExpiryText` | public/dashboard.js:372-380 | the expiry text has at most 5 characters, every one a digit except a '/' that can only stand third; with ExpiryDigits and ExpiryLayout this fixes it as the first two digits, '/' and up to two more, or the digits alone when at most two were typed |
| `Dashboard.ExpiryDigits` | public/dashboard.js:372-380 | the digits of the formatted expiry are the first four digits typed |
| `Dashboard.ExpiryLayout` | public/dashboard.js:373-379 | the expiry text has at most 5 characters and no whitespace; it contains '/' iff more than two digits were typed; it matches `^\d{2}/\d{2}$` iff at least four were |
| `Dashboard.ExpiryShapeDetermines` | public/dashboard.js:372-380 | a text of digits with at most a '/' third, whose digits are the first four typed and which holds '/' iff more than two were typed, is the formatter's output: removing non-digits, keeping two or fewer digits as they are, and otherwise the first two digits, '/' and the next up to two |
| `Dashboard.ExpiryIdempotent` | public/dashboard.js:372-380 | formatting a formatted expiry leaves it unchanged |
| `Dashboard.CvvText` | public/dashboard.js:382-384 | the CVV field keeps only digits, at most four, and they are the first digits typed |
| `Dashboard.CvvIdempotent` | public/dashboard.js:382-384 | formatting a formatted CVV leaves it unchanged |
| `Dashboard.ValidateExtension` | public/dashboard.js:186-222 | the request is built iff the trimmed name, expiry and CVV and the space-free number are present, the hours are in 1..24, the number has 16 or more digits, the expiry is MM/YY and the CVV has 3 or more characters; each error names the first failed check in the code's order |
| `Dashboard.ExtendClick` | public/dashboard.js:56-63 | a non-numeric hours field, or one outside 1..24, gives the 1-24 message before the form is read; otherwise the outcome is exactly that of the form checks with the parsed hours, so the duration error of those checks never shows |
| `Dashboard.FormattedFieldsAccepted` | public/dashboard.js:188-222 | fields produced by the three formatters from enough digits always pass the extension checks, and the card number sent is the first 16 digits typed |
| `Dashboard.ClockFields` | public/dashboard.js:302-304 | hours·3600 + minutes·60 + seconds is the remaining time, with minutes and seconds below 60 |
| `Dashboard.ClockFieldsUnique` | public/dashboard.js:302-304 | those are the only such fields |
| `Dashboard.ClockTextReadsBack` | public/dashboard.js:306-309 | the timer text splits at ':' into three digit groups (the last two of width 2) whose values give back the remaining seconds |
| `Dashboard.BandBySeconds` | public/dashboard.js:312-318 | the class is danger below one hour, warning from one to two hours and plain from two hours on, stated in seconds |
| `Dashboard.TimerDisplay` | public/dashboard.js:279-318 | the text is the clock of the remaining seconds (00:00:00 once expired) and the class bands are danger < 3600 s ≤ warning < 7200 s |
| `Dashboard.Countdown.Update` | public/dashboard.js:278-321 | an expired timer stops, shows 00:00:00 in danger, adds one EXPIRED badge and removes the active badge; otherwise it shows the time and counts down one second |
| `Dashboard.Countdown.StartAsWritten` | public/dashboard.js:273-328 | as written: one immediate update, then the interval is scheduled even if that update found the session expired |
| `Dashboard.Countdown.Start` | public/dashboard.js:273-328 | corrected: the timer is ticking iff time remained; the invariant (ticking, or stopped with exactly one EXPIRED badge) holds |
| `Dashboard.Countdown.Tick` | public/dashboard.js:320-327 | a firing keeps the invariant, counts down while time remains and stops at expiry |
| `Dashboard.ExpiredTwiceAsWritten` | public/dashboard.js:279-299 | a session already expired when displayed gets two EXPIRED badges |
| `Dashboard.InitialRemaining` | public/dashboard.js:160-162 | the countdown starts at the whole seconds left before `time_in + duration_hours`, or at 0 after it |
| `Dashboard.SessionView.constructor` | public/dashboard.js:30-32 | no session id and no session data at first |
| `Dashboard.SessionView.LoadAsWritten` | public/dashboard.js:77-88 | as written: the held data is replaced and redrawn only when the reference number changes; no session clears both |
| `Dashboard.SessionView.Load` | public/dashboard.js:77-88 | corrected, as the comment on line 78 says: the held data is always the data last loaded, and it is redrawn iff it changed |
| `Dashboard.SessionView.EndParking` | public/dashboard.js:330-357 | the session is forgotten only when the user confirmed and the server agreed |
| `Dashboard.StaleAfterExtensionAsWritten` | public/dashboard.js:251-253 | after a 2-hour session is extended to 3 hours and reloaded, the view still holds 2 hours and no redraw happens |
| `Dashboard.FreshAfterExtension` | public/dashboard.js:77-88 | with the corrected rule the same reload holds 3 hours and restarts the countdown at 10799 s |
| `AdminManage.FilterBySearch` | public/admin-manage.js:95-105 | an empty search keeps every user; otherwise every user kept matches the lower-cased term, and the result is never longer than the list |
| `AdminManage.SearchMembers` | public/admin-manage.js:99-104 | a user is in the result iff it is in the list and matches (id, name, e-mail or phone contains the term) |
| `AdminManage.SearchIdempotent` | public/admin-manage.js:95-105 | searching the result again with the same term changes nothing |
| `AdminManage.SearchKeepsOrder` | public/admin-manage.js:95-105 | the search distributes over concatenation and keeps a single user iff it matches, so the result is the matching users in their original order and multiplicity |
| `AdminManage.TotalPages` | public/admin-manage.js:114 | `Math.ceil(n / 10)`: the fewest pages of ten that hold n users |
| `AdminManage.Paginate` | public/admin-manage.js:107-110 | a page holds at most ten users, the k-th being user (page−1)·10 + k, and it is full unless it is the last |
| `AdminManage.EveryUserOnAPage` | public/admin-manage.js:107-114 | user i appears at position i mod 10 of page i div 10 + 1, which is within the page count |
| `AdminManage.MovePage` | public/admin-manage.js:121-131 | the page moves by delta exactly when the target is within 1..total pages, and is unchanged otherwise |
| `AdminManage.Pager` | public/admin-manage.js:112-119 | the page text begins with "Page "; the previous button is disabled iff the page is at most 1, the next button iff it is at least the page count |
| `AdminManage.PagerReadsBack` | public/admin-manage.js:116 | the page text splits at spaces into "Page", the page number, "of" and the page count, and both numbers read back to their values |
| `AdminManage.ButtonsMatchMoves` | public/admin-manage.js:117-118 | the previous/next buttons are enabled exactly when the corresponding move changes the page |
| `AdminManage.KeyLessFacts` | public/admin-manage.js:171-173 | the key order (numbers by value, strings character by character) is asymmetric, total and transitive |
| `AdminManage.CompareOrder` | public/admin-manage.js:160-174 | the comparator is antisymmetric and transitive in both directions |
| `AdminManage.SortBy` | public/admin-manage.js:160-174 | the sorted list is a permutation of the users and ordered by the comparator; an unknown column leaves it unchanged |
| `AdminManage.SortedByKey` | public/admin-manage.js:163-173 | in the sorted list no later user's key is below an earlier one's (above, when descending) |
| `AdminManage.UserTable.constructor` | public/admin-manage.js:1-5 | no users, page 1, no sort column, ascending |
| `AdminManage.UserTable.LoadUsers` | public/admin-manage.js:30 | the fetched list replaces the users, nothing else changes |
| `AdminManage.UserTable.ChangePage` | public/admin-manage.js:121-131 | the page moves only within 1..pages of the filtered list |
| `AdminManage.UserTable.FilterUsers` | public/admin-manage.js:133-137 | a new search returns to page 1 |
| `AdminManage.UserTable.SortTable` | public/admin-manage.js:140-177 | the same column flips the direction, a new one starts ascending; the users are permuted into sorted order; the page is kept |
| `VehicleManage.Sanitize` | public/vManage.js:102-104 | the input keeps only A-Z, 0-9 and space after upper-casing, and never grows |
| `VehicleManage.SanitizeFixes` | public/vManage.js:102-104 | the input handler leaves a value unchanged iff it holds only A-Z, 0-9 and space |
| `VehicleManage.SanitizeIdempotent` | public/vManage.js:103 | sanitising a sanitised value changes nothing |
| `VehicleManage.SanitizeKeeps` | public/vManage.js:103 | a character survives iff it is a plate character of the upper-cased input |
| `VehicleManage.ValidateLicensePlate` | public/vManage.js:128-132 | a plate is valid iff it has 2 to 8 characters and the input handler would leave it unchanged |
| `VehicleManage.CollapseKeepsText` | public/vManage.js:110 | collapsing whitespace runs keeps every non-space character in order |
| `VehicleManage.NormalizePlate` | public/vManage.js:107-110 | the normalised plate is no longer than the field and has no whitespace at either end |
| `VehicleManage.NormalForm` | public/vManage.js:107-110 | the normalised plate keeps the plate characters, has no space at either end and no two spaces in a row, and has the same non-space text |
| `VehicleManage.NormalChars` | public/vManage.js:107-110 | normalising a sanitised value leaves only plate characters |
| `VehicleManage.NormalSingleSpaces` | public/vManage.js:110 | the normalised plate never has two spaces in a row |
| `VehicleManage.NormalKeepsText` | public/vManage.js:107-110 | normalising keeps the non-space text |
| `VehicleManage.SubmitPlate` | public/vManage.js:106-132 | a plate is added only in normalised form and only if it passes `^[A-Z0-9 ]{2,8}$` |
| `VehicleManage.SubmitByLettersAndDigits` | public/vManage.js:102-132 | for a sanitised field of at most 8 characters: no letters or digits is ignored, one is refused, two or more are added |
| `VehicleManage.AddVehicleFlow` | public/vManage.js:74 | 4 or more vehicles when the form opens stops at the limit; otherwise the outcome is that of the plate check, and a plate that passes is added iff the count fetched again on submit (line 142) is still below 4 |
| `VehicleManage.AddButton.LoadVehiclesAsWritten` | public/vManage.js:26-30 | as written: the button becomes disabled at 4 vehicles and is never enabled again |
| `VehicleManage.AddButton.LoadVehicles` | public/vManage.js:26-30 | corrected: the button is disabled iff the user has 4 or more vehicles |
| `VehicleManage.StaysDisabledAsWritten` | public/vManage.js:26-30 | after reaching 4 vehicles and removing one, the reloaded button is still disabled |
| `VehicleManage.DurationFields` | public/vManage.js:364-365 | for a non-negative difference, hours·60 + minutes is the whole minutes elapsed, with minutes below 60 |
| `VehicleManage.CalculateDuration` | public/vManage.js:356-368 | no start gives "N/A", no end gives "Active", otherwise "{h}h {m}m" |
| `VehicleManage.RowLines` | public/vManage.js:316 | each row becomes its fields joined by ',' |
| `VehicleManage.CsvContent` | public/vManage.js:313-317 | with no rows the file is the header line alone; otherwise it begins with the header line and a line break |
| `VehicleManage.CsvLines` | public/vManage.js:313-317 | without line breaks inside fields, the file splits into the header line and one line per row |
| `VehicleManage.CsvRowsReadBack` | public/vManage.js:313-317 | a row whose fields hold no ',' is read back field for field from its line |
| `VehicleManage.Distinct` | public/vManage.js:227 | `[...new Set(plates)]`: the same plates, no repeats, the first plate first |
| `VehicleManage.DistinctFirstOccurrenceOrder` | public/vManage.js:227 | the distinct plates appear in the order of their first occurrence in the history, which is the order of the filter's options |
| `VehicleManage.DistinctMoreThanOne` | public/vManage.js:227-230 | the filter is added iff some plate differs from the first |
| `VehicleManage.HistoryTable.AddVehicleFilter` | public/vManage.js:245-264 | the filter is created once, with "all" followed by the plates, and never replaced |
| `VehicleManage.HistoryTable.LoadHistory` | public/vManage.js:198-243 | the rows are the history items (or the one placeholder row, plate ''), all shown; the filter appears when more than one distinct plate exists |
| `VehicleManage.HistoryTable.FilterByVehicle` | public/vManage.js:266-278 | a row is shown iff "all" is selected or its plate is the selected one |
| `LocationManage.OptionFor` | public/location-manage.js:56-74 | a disabled location is maintenance iff its reason includes "Maintenance", otherwise closed; an enabled one is event-only iff its reason includes "Event", otherwise open; a reason is attached iff it is not open |
| `LocationManage.PopulateDropdown` | public/location-manage.js:52-77 | the placeholder first, then one option per location in order |
| `LocationManage.RowFor` | public/location-manage.js:109-127 | a disabled location's restriction is its reason or "Administrative closure"; an event location's is its reason; an open row's is "None" |
| `LocationManage.UpdateStatusTable` | public/location-manage.js:102-145 | one row per location, in order |
| `LocationManage.TableAgreesWithDropdown` | public/location-manage.js:62-74 | the table's class and text name the dropdown's status, and its restriction is the option's reason (with its defaults) |
| `LocationManage.SelectedStatus` | public/location-manage.js:152-156 | the placeholder shows "Status: Not selected" with class status-unknown; a location shows "Status: " and its status label, followed by " (reason)" when its reason is non-empty, with the class of its status |
| `LocationManage.SelectedMatchesTable` | public/location-manage.js:158-181 | the status line has the table's class, starts with "Status: " and the table's text, and is that text followed by " (reason)" exactly when the option carries a non-empty reason |
| `LocationManage.HandleLocationAction` | public/location-manage.js:215-266 | no location, then a declined confirmation, then a missing reason for close/event/maintenance stop the action; the body is as the code builds it (event: reason "Event" and "Event: name. notes"; maintenance: "Scheduled maintenance" by default; open: the action alone) |
| `LocationManage.ValidateNewLocation` | public/location-manage.js:342-366 | accepted iff the trimmed name is non-empty, the trimmed code has 4 characters, the spaces parse to at least 1 and the rate to at least 0.5; the first error is the combined "fill all fields" check |
| `LocationManage.ValidateSpaceUpdate` | public/location-manage.js:296-320 | refused for no location iff none is selected; fields that do not parse count as 0; refused iff both are then 0; otherwise exactly both numbers are sent, negatives included |
| `Payment.DiscountRate` | public/payment.js:46-49 | exactly one tier applies: 20% from 24 h, 15% from 12 h, 10% from 8 h, none below 8 h or for a NaN duration |
| `Payment.DiscountMonotone` | public/payment.js:46-49 | a longer stay never gets a smaller rate |
| `Payment.DiscountAmount` | public/payment.js:52 | the discount of a non-negative total is non-negative |
| `Payment.DiscountBackCalculation` | public/payment.js:52 | for a total that is base·(1−r), the discount shown is base·r, and total plus discount is the base price |
| `Payment.DurationLabel` | public/payment.js:33-35 | a missing duration shows "Not specified"; otherwise exactly the text followed by " hour", plus "s" when the parsed duration is above 1, so the label ends in "hours" iff it is above 1 |
| `Payment.DisplayBookingDetails` | public/payment.js:27-55 | the pricing block exists iff total and duration are present; the hourly rate times the parsed hours is the total; a discount line is shown iff the duration is 8 h or more |
| `Payment.DiscountLineIsSaving` | public/payment.js:51-54 | whenever the discount line shows, it is exactly what the tier took off the undiscounted price |
| `Payment.ValidatePayment` | public/payment.js:59-67 | payment proceeds iff the trimmed card number, expiry and CVV are all non-empty, and the trimmed values are used |
| `Payment.ValidatePaymentIdempotent` | public/payment.js:59-61 | accepted fields pass the check again unchanged |
| `Registration.CheckPassword` | public/registration-script.js:42-48 | each flag holds iff the password has ≥ 8 characters, an upper-case letter, a lower-case letter, a digit, a character of `!@#$%^&*(),.?":{}` or `|<>` |
| `Registration.FlagsAgreeWithSubmit` | public/registration-script.js:122-128 | the form's `passwordValid` is the conjunction of the five flags shown to the user |
| `Registration.PasswordValidMeaning` | public/registration-script.js:122-128 | a password is strong iff it has ≥ 8 characters and one character of each of the four classes |
| `Registration.CollectForm` | public/registration-script.js:62-70 | names, phone and e-mail are trimmed; passwords and plate are taken as they are |
| `Registration.ValidateForm` | public/registration-script.js:107-142 | valid iff all fields are filled, the passwords match, the password is strong and a plate was recorded; each failure is reported in that order |
| `Registration.VehicleCapture.constructor` | public/registration-script.js:9 | no plate recorded at first |
| `Registration.VehicleCapture.OpenForm` | public/registration-script.js:12-15 | the pop-up opens, plate and label unchanged |
| `Registration.VehicleCapture.CloseForm` | public/registration-script.js:17-20 | the pop-up closes, plate and label unchanged |
| `Registration.VehicleCapture.SubmitVehicleAsWritten` | public/registration-script.js:26-33 | as written: the trimmed field always replaces the plate; the label changes and the pop-up closes only when it is non-empty |
| `Registration.VehicleCapture.SubmitVehicle` | public/registration-script.js:26-33 | corrected: only a non-empty trimmed plate is recorded, so the label always shows the plate recorded |
| `Registration.BlankResubmitAsWritten` | public/registration-script.js:28 | a plate, then a blank resubmission: the button still shows the plate, yet a complete form is refused for want of a vehicle |
| `Registration.BlankResubmit` | public/registration-script.js:28-32 | with the corrected handler the same steps keep the plate and the form is valid |
| `Contact.EmailShape` | public/contact-script.js:39 | `^\S+@\S+\.\S+$` holds iff the address has no whitespace and splits as a '@' b '.' c with a, b, c non-empty |
| `Contact.ValidateFeedback` | public/contact-script.js:25-41 | after trimming: either field empty is reported first, then a message under 50 characters (50 passes), then a bad e-mail; otherwise the trimmed fields are sent |
| `Contact.ValidateFeedbackIgnoresPadding` | public/contact-script.js:26-27 | surrounding whitespace never changes the outcome |
| `ResetPassword.InitResetPage` | public/reset-password.js:3-13 | a missing or empty token gives the invalid-token state; otherwise the token is kept |
| `ResetPassword.OnSubmit` | public/reset-password.js:18-41 | a mismatch is reported before a short password; a matching password of 8 or more characters is sent with the token, with no other rule |
| `ResetPassword.FirstError` | public/reset-password.js:64 | `querySelector` finds an error element with none before it |
| `ResetPassword.RemoveFirstError` | public/reset-password.js:64-65 | with no error element the children are unchanged; otherwise the first error element is removed, the other children stay in order, and exactly one error is gone |
| `ResetPassword.ResetForm.ShowError` | public/reset-password.js:60-68 | the new error is first, the old one is gone, and exactly one error element remains |
| `ResetPassword.ResetForm.Submit` | public/reset-password.js:15-41 | a rejected password puts its message first and removes only the earlier error element, keeping the other children in order; an accepted one returns the request and leaves the form unchanged |
| `ResetPassword.ResetForm.Reply` | public/reset-password.js:45-57 | success hides the form and shows the success message; a refusal shows the server's message or the default and a network failure its own, each replacing only the earlier error element and leaving the form visible |
| `Auth.CurrentPage` | public/auth.js:16 | the page name has no '/' and is the lower-cased tail of the path |
| `Auth.CurrentPageOfFile` | public/auth.js:16 | for a path ending in "/file" the page is the lower-cased file name |
| `Auth.PublicPages` | public/auth.js:4-10 | the four public pages, the empty page and tails such as "ex.html" all count as public |
| `Auth.LongPagesGuarded` | public/auth.js:77 | a page name longer than every route is never public |
| `Auth.RouteGuard` | public/auth.js:77-80 | the browser is sent to the login page iff there is no user and no public route ends with the page |
| `Auth.GuardLetsThrough` | public/auth.js:77-80 | the login page is never redirected, whatever directory it is served from |
| `Auth.ActiveFlags` | public/auth.js:63-69 | a link is active iff its lower-cased href is the current page |
| `Auth.NavLinks` | public/auth.js:35-61 | a signed-in user gets five page links, a guest three |
| `Auth.AtMostOneActive` | public/auth.js:35-69 | no two links of either menu are active at once |
| `Auth.LinkActiveOnItsPage` | public/auth.js:63-69 | every menu link is active on its own page, whatever the case of its href |
| `Auth.PageTitle` | public/auth.js:90-91 | the title drops the first ".html", has no '-' and does not begin with a lower-case letter |
| `Auth.PageTitleOfStem` | public/auth.js:90-91 | for "stem.html" the title is the stem with dashes as spaces and a capital first letter |
| `Auth.GetAuthHeaders` | public/auth.js:107-113 | no user gives no headers; a user gives exactly a bearer token (the text "undefined" without one) and the JSON content type |
| `Auth.BrowserStorage.Logout` | public/auth.js:97-100 | the stored user is removed, nothing else, and the browser goes to the login page |
| `Auth.LogoutThenVisit` | public/auth.js:77-100 | after logging out, every page that is not public redirects to the login page |
| `Notifications.RoundHours` | public/notifications.js:84 | `Math.round` of the hours: within half an hour of the difference, halves rounded up |
| `Notifications.RoundHoursUnique` | public/notifications.js:84 | no other whole number of hours is that near |
| `Notifications.DisplayDuration` | public/notifications.js:83-84 | `duration_hours` when truthy, otherwise the rounded hour difference |
| `Notifications.RowFor` | public/notifications.js:86-104 | reference or "N/A"; "name (code)" for the location; the displayed duration; upper-cased status; a reason note iff a reason is present; a cancel button iff pending or confirmed |
| `Notifications.RenderUserBookings` | public/notifications.js:68-109 | no bookings renders the placeholder row alone; otherwise one row per booking in order |
| `Notifications.CancelButtonsExactly` | public/notifications.js:99-103 | the cancel button is on exactly the pending and confirmed rows |
| `Notifications.CancelDialog.Open` | public/notifications.js:25-34 | the booking is selected and its reference shown |
| `Notifications.CancelDialog.Close` | public/notifications.js:36-43 | the dialog hides, the reason empties and the selection is null |
| `Notifications.CancelDialog.EnterReason` | public/notifications.js:114 | the typed reason is what a confirmation will send; the selection is untouched |
| `Notifications.CancelDialog.ConfirmCancel` | public/notifications.js:111-127 | nothing happens without a selection; without a user the request cannot be built; otherwise it carries the selected booking, the reason and the user |
| `Notifications.CloseForgetsSelection` | public/notifications.js:36-43 | after closing, a confirmation does nothing |
| `AdminNotifications.AdminGate` | public/admin-notifications.js:2-12 | guests go to the login page, non-admins to the main page, admins stay |
| `AdminNotifications.ActionsFor` | public/admin-notifications.js:106-118 | accept and reject iff pending; otherwise "Reason: …" iff a reason is present, else nothing |
| `AdminNotifications.RowFor` | public/admin-notifications.js:88-119 | the reference and location cells are those of the user's page; user and plate as given; the fallback duration; upper-cased status; "By {admin}" iff a processor name is present; the actions cell |
| `AdminNotifications.RenderBookings` | public/admin-notifications.js:73-124 | no bookings renders the placeholder row alone; otherwise one row per booking in order |
| `AdminNotifications.AdminActionsWithinUserCancellable` | public/admin-notifications.js:106 | an admin may accept or reject exactly the bookings the user could cancel that are not confirmed |
| `AdminNotifications.RejectDialog.Open` | public/admin-notifications.js:37-46 | the booking is selected and its reference shown |
| `AdminNotifications.RejectDialog.Close` | public/admin-notifications.js:48-55 | the dialog hides, the reason empties and the selection is null |
| `AdminNotifications.RejectDialog.EnterReason` | public/admin-notifications.js:129 | the typed reason is what a confirmation will send; the selection is untouched |
| `AdminNotifications.RejectDialog.ConfirmReject` | public/admin-notifications.js:126-147 | nothing without a selection, a refusal without a user, otherwise the reason (possibly empty) and the admin id |
| `AdminNotifications.RejectWithoutReason` | public/admin-notifications.js:129-147 | a rejection with no reason typed sends the empty reason |
| `AdminNotifications.ConfirmAccept` | public/admin-notifications.js:193-211 | a request is made iff a user is signed in, with the booking and the admin id |
| `Account.UpdateUserDisplay` | public/account.js:67-71 | each missing field is shown as '' |
| `Account.FallbackUser` | public/account.js:56-62 | without a stored user the sample user is shown |
| `Account.ValidateProfile` | public/account.js:89-106 | no user is reported first, then any empty field; the fields are not trimmed |
| `Account.BlankFieldsAccepted` | public/account.js:104-106 | fields of spaces are truthy, so a signed-in user's blank-looking profile is accepted |
| `Account.CheckImage` | public/account.js:164-179 | accepted iff the type is JPEG, PNG or GIF and the size is at most 2·1024·1024 bytes; a bad type is reported before the size |
| `Account.TypeReportedFirst` | public/account.js:169-179 | a file that is both of the wrong type and too large is reported for its type |
| `Account.ImageUpload.OpenPopup` | public/account.js:142-147 | the earlier choice is forgotten and the button is disabled |
| `Account.ImageUpload.ChooseFile` | public/account.js:158-193 | a rejected file, or none, leaves the button disabled and keeps the earlier choice; an accepted one is kept; a kept file has always passed the check |
| `Account.ImageUpload.PreviewLoaded` | public/account.js:184-187 | the preview's load enables the button |
| `Account.RejectedFileLeavesNothing` | public/account.js:164-179 | a rejected file just after opening leaves nothing to upload and the button disabled |

## Left out

- Network requests, `localStorage` reads, DOM rendering, `alert`/`confirm` dialogs and timers.
  - Server answers, confirmation answers and stored users are parameters.
  - Rendered HTML is a row or field datatype.
  - `setInterval` firings are calls to `Countdown.Tick`.
- Locale date and time formatting (`toLocaleString`, `formatDate`, `formatTime`).
- `toFixed` rounding of money.
  - Amounts and rates are exact reals.
  - A NaN or Infinity result is `None`.
- The text-to-number conversions `parseInt`, `parseFloat` and `Number`. Their results are parameters.
- Unicode: case mapping and `\s`/`\S` cover ASCII only.
- JavaScript string lengths and string `<` work on UTF-16 code units, while the model counts and compares characters.
  - The two agree for text below U+10000.
  - A character above it counts twice in `.length`. This affects the 8-character password checks, the 50-character message check, and the CVV, card number and location code lengths.
  - It can also order two such strings differently in the user table.
- The FileReader upload simulation (public/account.js:195-225). Also the close-account action (public/account.js:243-255), which only clears storage and redirects.
- Opening and closing the profile and picture pop-ups (public/account.js:73-87, 154-156) and the saved picture shown on load (public/account.js:258-263). They only copy values into the page.
- Random reference generation (public/payment.js:107-109).
- The session request of `processPayment`.
  - It reads `user`, which is declared only inside the page-load handler (public/payment.js:85).
  - So every submission that passes the field check ends in the catch branch.
- The sort indicator arrows (public/admin-manage.js:149-157). Also the undefined `clearSearch` export (public/admin-manage.js:247).
- AdminManage.SortBy: insertion sort stands in for `Array.prototype.sort`.
  - Both are stable, and the comparator's order is proved.
  - The order among users with equal keys is not stated.
- Countdown: each `Countdown` owns its own interval. The page instead keeps one global handle, `countdownInterval` (public/dashboard.js:31, 280, 327).
  - `displayActiveSession` never clears a running interval; only the no-session path does (public/dashboard.js:100-103).
  - So after a redraw the earlier closure keeps firing. At its own expiry it clears whatever the handle holds (the new timer), adds EXPIRED to the current header and removes the new ACTIVE badge.
  - The model does not capture this interference between successive timers.
  - The corrected `SessionView.Load` says when to redraw. It does not show the old interval being cleared before the redraw, which the correction also needs.
- Dashboard.ValidateExtension: the second name check (public/dashboard.js:204-207) can never fail after the first. The model has no separate case for it.
- Dashboard.InitialRemaining: `duration_hours` is taken as a whole number of hours.
- `VehicleManage`: adding a vehicle and removing selected ones are not modelled beyond the count checks.
  - These are `addVehicle` after line 146 and `handleRemoveSelected`.
  - Both are only requests.
- Auth: public/auth.js still contains committed merge-conflict markers (lines 8, 21, 34, 45-49, 71-75, 81-85, 101-149).
  - As shipped, the file does not parse, so none of it runs.
  - So the route guard, the navigation links, `getAuthHeaders` and `logout` do not exist in the browser. The calls to them from the contact and admin-manage scripts throw.
  - The module models the file as its authors meant it. Both sides of every hunk differ only in whitespace, and either side gives the same model.
- Auth: the logout button is not modelled.
  - The link list is built without one, yet the handler looks it up (public/auth.js:51).
  - On a page without that element the script stops there.
- LocationManage.HandleLocationAction: follows the code, which differs from a plain reading of the form in two ways.
  - The event action also demands the closure-reason field, although the body sends the fixed reason "Event" (public/location-manage.js:250-259).
  - The close action's "Administrative closure" default is unreachable, because an empty reason was refused first.
- LocationManage.ValidateNewLocation: follows the code's order.
  - The first check combines four conditions into one message (public/location-manage.js:348): empty name, empty code, NaN spaces, NaN rate.
  - The code is checked after upper-casing.
- Registration.VehicleCapture.SubmitVehicleAsWritten: follows the code. The field is stored before it is tested (public/registration-script.js:28), so a blank resubmission erases the recorded plate. The corrected member is listed under Findings.

## Findings

| source | as written | input that shows it | evidently intended | confidence | as-written member | corrected member |
|---|---|---|---|---|---|---|
| public/dashboard.js:279-299, 323-327 | the immediate `updateTimer()` call clears an interval that does not exist yet; then `setInterval` is scheduled anyway | a session displayed with 0 seconds left: one EXPIRED badge at once and a second one a second later | schedule the interval only while time remains, so there is one EXPIRED badge | medium, not executed | `Dashboard.ExpiredTwiceAsWritten` (with `Dashboard.Countdown.StartAsWritten`) | `Dashboard.Countdown.Start` |
| public/dashboard.js:77-83 | the held session is replaced only when the reference number changes, although the comment says "or data has changed" | extend a 2-hour session by 1 hour; the reload at line 253 returns the same reference with 3 hours; the view keeps 2 hours and the old countdown | replace and redraw whenever the data differs, clearing the running interval first | high, not executed | `Dashboard.StaleAfterExtensionAsWritten` (with `Dashboard.SessionView.LoadAsWritten`) | `Dashboard.SessionView.Load` (see `Dashboard.FreshAfterExtension`) |
| public/vManage.js:26-30 | the add button is disabled at 4 vehicles but never re-enabled | load 4 vehicles, remove one, reload: the button stays disabled | the button is disabled iff the user has 4 or more vehicles | medium, not executed | `VehicleManage.StaysDisabledAsWritten` (with `VehicleManage.AddButton.LoadVehiclesAsWritten`) | `VehicleManage.AddButton.LoadVehicles` |
| public/registration-script.js:28-32 | the trimmed field is stored before it is tested, so a blank submit erases the plate while the button keeps showing it | enter "AB12CDE", reopen the pop-up and submit "  "; the button reads AB12CDE, yet registering says "Please add your vehicle details" | record the plate only when it is non-empty | medium, not executed | `Registration.BlankResubmitAsWritten` (with `Registration.VehicleCapture.SubmitVehicleAsWritten`) | `Registration.VehicleCapture.SubmitVehicle` (see `Registration.BlankResubmit`) |
