/**
  The user dashboard (public/dashboard.js): the card-field formatters of the
  extension form, the validation of an extension, the countdown timer of the
  active parking session and the rule that decides when a freshly loaded
  session replaces the one on screen.

  Times are integer milliseconds; seconds shown by the timer are integers.
*/
module Dashboard {
  import opened Wrappers
  import opened Text

  // ---------------------------------------------------------------------------
  // Card number: digits only, at most 16, a space before every fourth digit
  // ---------------------------------------------------------------------------

  /** Digits laid out in groups of four separated by one space. */
  function Grouped(d: string): string
    decreases |d|
  {
    if |d| <= 4 then d else d[..4] + " " + Grouped(d[4..])
  }

  /** What the card-number field holds after one input event. */
  function CardNumberText(raw: string): string
  {
    Grouped(Take(DigitsOnly(raw), 16))
  }

  /** Appending one digit adds a separating space first exactly when a full group precedes it. */
  lemma {:induction false} GroupedSnoc(d: string, c: char)
    ensures Grouped(d + [c]) == if |d| > 0 && |d| % 4 == 0 then Grouped(d) + " " + [c] else Grouped(d) + [c]
    decreases |d|
  {
    if |d| < 4 {
    } else if |d| == 4 {
      assert (d + [c])[..4] == d && (d + [c])[4..] == [c];
    } else {
      assert (d + [c])[..4] == d[..4] && (d + [c])[4..] == d[4..] + [c];
      GroupedSnoc(d[4..], c);
    }
  }

  /** Character `k` of the grouped text: a space at every fifth position, otherwise digit `k - k / 5`. */
  lemma {:induction false} GroupedShape(d: string)
    ensures |Grouped(d)| == if d == [] then 0 else |d| + (|d| - 1) / 4
    ensures forall k :: 0 <= k < |Grouped(d)| ==> Grouped(d)[k] == if k % 5 == 4 then ' ' else d[k - k / 5]
    decreases |d|
  {
    if |d| > 4 {
      var rest := d[4..];
      GroupedShape(rest);
      var g := Grouped(d);
      assert g == d[..4] + " " + Grouped(rest);
      forall k | 0 <= k < |g|
        ensures g[k] == if k % 5 == 4 then ' ' else d[k - k / 5]
      {
        if k >= 5 {
          assert g[k] == Grouped(rest)[k - 5];
          assert (k - 5) % 5 == k % 5 && (k - 5) / 5 == k / 5 - 1;
        }
      }
    }
  }

  /** The grouped text starts with the first digit and ends with the last one. */
  lemma {:induction false} GroupedEnds(d: string)
    requires d != []
    ensures Grouped(d) != [] && Grouped(d)[0] == d[0] && Grouped(d)[|Grouped(d)| - 1] == d[|d| - 1]
    decreases |d|
  {
    if |d| > 4 {
      GroupedEnds(d[4..]);
    }
  }

  /** Filtering the grouped text with a test that keeps the digits and drops the space gives the digits back. */
  lemma {:induction false} GroupedFilter(p: char -> bool, d: string)
    requires forall i :: 0 <= i < |d| ==> p(d[i])
    requires !p(' ')
    ensures Filter(p, Grouped(d)) == d
    decreases |d|
  {
    if |d| <= 4 {
      FilterAllPass(p, d);
    } else {
      FilterConcat(p, d[..4] + " ", Grouped(d[4..]));
      FilterConcat(p, d[..4], " ");
      FilterAllPass(p, d[..4]);
      assert Filter(p, " ") == [];
      GroupedFilter(p, d[4..]);
      assert d[..4] + d[4..] == d;
    }
  }

  /** `formatCardNumber`: the loop that rebuilds the field from its digits. */
  method FormatCardNumber(input: string) returns (formatted: string)
    ensures formatted == CardNumberText(input)
  {
    var value := DigitsOnly(input);
    formatted := "";
    var i := 0;
    while i < |value| && i < 16
      invariant 0 <= i <= |value| && i <= 16
      invariant formatted == Grouped(value[..i])
    {
      GroupedSnoc(value[..i], value[i]);
      assert value[..i + 1] == value[..i] + [value[i]];
      if i > 0 && i % 4 == 0 {
        formatted := formatted + " ";
      }
      formatted := formatted + [value[i]];
      i := i + 1;
    }
    assert value[..i] == Take(value, 16);
  }

  /** The field keeps exactly the first 16 digits typed and nothing else. */
  lemma CardNumberDigits(raw: string)
    ensures DigitsOnly(CardNumberText(raw)) == Take(DigitsOnly(raw), 16)
    ensures RemoveSpaces(CardNumberText(raw)) == Take(DigitsOnly(raw), 16)
  {
    var d := Take(DigitsOnly(raw), 16);
    GroupedFilter(IsDigit, d);
    GroupedFilter(NotSpace, d);
  }

  /** At most 19 characters, no space at either end, and a space exactly at every fifth position. */
  lemma CardNumberLayout(raw: string)
    ensures |CardNumberText(raw)| <= 19
    ensures CardNumberText(raw) != [] ==>
      IsDigit(CardNumberText(raw)[0]) && IsDigit(CardNumberText(raw)[|CardNumberText(raw)| - 1])
    ensures forall k :: 0 <= k < |CardNumberText(raw)| ==> (CardNumberText(raw)[k] == ' ' <==> k % 5 == 4)
  {
    var d := Take(DigitsOnly(raw), 16);
    GroupedShape(d);
    if d != [] {
      GroupedEnds(d);
    }
  }

  /** Formatting an already formatted number leaves it as it is. */
  lemma CardNumberIdempotent(raw: string)
    ensures CardNumberText(CardNumberText(raw)) == CardNumberText(raw)
  {
    CardNumberDigits(raw);
  }

  // ---------------------------------------------------------------------------
  // Expiry and CVV fields
  // ---------------------------------------------------------------------------

  /** What the expiry field holds after one input event: digits only, except for a
      '/' as the third character. */
  function ExpiryText(raw: string): (r: string)
    ensures |r| <= 5
    ensures forall i :: 0 <= i < |r| ==> IsDigit(r[i]) || (i == 2 && r[i] == '/')
  {
    var v := DigitsOnly(raw);
    if |v| > 2 then v[..2] + "/" + Take(v[2..], 2) else v
  }

  /** The extension form's expiry test: two digits, a slash, two digits. */
  predicate ExpiryPattern(s: string)
  {
    |s| == 5 && IsDigit(s[0]) && IsDigit(s[1]) && s[2] == '/' && IsDigit(s[3]) && IsDigit(s[4])
  }

  /** Dropping the non-digits from digits around one separator leaves the digits. */
  lemma DigitsAround(a: string, c: char, b: string)
    requires AllDigits(a) && AllDigits(b) && !IsDigit(c)
    ensures DigitsOnly(a + [c] + b) == a + b
  {
    var ac := a + [c];
    FilterConcat(IsDigit, a, [c]);
    FilterAllPass(IsDigit, a);
    assert Filter(IsDigit, [c]) == [] by {
      assert [c][1..] == [];
    }
    assert Filter(IsDigit, ac) == a;
    FilterConcat(IsDigit, ac, b);
    FilterAllPass(IsDigit, b);
  }

  /** The expiry field keeps exactly the first four digits typed. */
  lemma ExpiryDigits(raw: string)
    ensures DigitsOnly(ExpiryText(raw)) == Take(DigitsOnly(raw), 4)
  {
    var v := DigitsOnly(raw);
    if |v| > 2 {
      var head, tail := v[..2], Take(v[2..], 2);
      DigitsAround(head, '/', tail);
      assert head + tail == Take(v, 4);
    } else {
      FilterAllPass(IsDigit, v);
    }
  }

  /** At most five characters, no whitespace, the slash only after a third digit, and the
      shape the extension form accepts exactly when four digits were typed. */
  lemma ExpiryLayout(raw: string)
    ensures |ExpiryText(raw)| <= 5 && NoSpace(ExpiryText(raw))
    ensures ('/' in ExpiryText(raw)) <==> |DigitsOnly(raw)| > 2
    ensures ExpiryPattern(ExpiryText(raw)) <==> |DigitsOnly(raw)| >= 4
  {
    var v := DigitsOnly(raw);
    var r := ExpiryText(raw);
    if |v| > 2 {
      assert r[2] == '/';
    } else {
      assert forall i :: 0 <= i < |r| ==> IsDigit(r[i]);
    }
  }

  /** Any text of the formatter's shape with the formatter's digits is the formatter's
      output: the contracts above leave no freedom. */
  lemma ExpiryShapeDetermines(raw: string, s: string)
    requires forall i :: 0 <= i < |s| ==> IsDigit(s[i]) || (i == 2 && s[i] == '/')
    requires DigitsOnly(s) == Take(DigitsOnly(raw), 4)
    requires ('/' in s) <==> |DigitsOnly(raw)| > 2
    ensures s == ExpiryText(raw)
  {
    var v := DigitsOnly(raw);
    if '/' in s {
      assert s[2] == '/';
      var head, tail := s[..2], s[3..];
      assert AllDigits(head) && AllDigits(tail);
      DigitsAround(head, '/', tail);
      assert s == head + "/" + tail;
      assert head == Take(v, 4)[..2] == v[..2];
      assert tail == Take(v, 4)[2..] == Take(v[2..], 2);
    } else {
      assert AllDigits(s);
      FilterAllPass(IsDigit, s);
    }
  }

  lemma ExpiryIdempotent(raw: string)
    ensures ExpiryText(ExpiryText(raw)) == ExpiryText(raw)
  {
    ExpiryDigits(raw);
    var v := DigitsOnly(raw);
    if |v| > 2 {
      assert Take(v, 4)[..2] == v[..2] && Take(v, 4)[2..] == Take(v[2..], 2);
    }
  }

  /** What the CVV field holds after one input event: the first (at most four) digits. */
  function CvvText(raw: string): (r: string)
    ensures AllDigits(r) && |r| <= 4
    ensures |r| == (if |DigitsOnly(raw)| < 4 then |DigitsOnly(raw)| else 4)
    ensures r == DigitsOnly(raw)[..|r|]
  {
    Take(DigitsOnly(raw), 4)
  }

  lemma CvvIdempotent(raw: string)
    ensures CvvText(CvvText(raw)) == CvvText(raw)
  {
    FilterAllPass(IsDigit, CvvText(raw));
  }

  // ---------------------------------------------------------------------------
  // Extension form
  // ---------------------------------------------------------------------------

  datatype ExtensionError =
    | MissingCardDetails
    | InvalidDuration
    | InvalidCardNumber
    | InvalidExpiry
    | InvalidCvv
    | HoursOutOfRange

  /** The body of the extension request (the session reference is added by the caller). */
  datatype ExtensionRequest = ExtensionRequest(
    additionalHours: int, cardNumber: string, cardExpiry: string, cardCvv: string, cardName: string)

  /** The first check of `processExtension`: every card field holds something once trimmed
      (the number once its whitespace is removed). */
  predicate CardFieldsFilled(name: string, number: string, expiry: string, cvv: string)
  {
    Trim(name) != "" && RemoveSpaces(number) != "" && Trim(expiry) != "" && Trim(cvv) != ""
  }

  /** `processExtension`: the checks, in order, that stand between the form and the request. */
  function ValidateExtension(name: string, number: string, expiry: string, cvv: string, hours: int)
    : (r: Result<ExtensionRequest, ExtensionError>)
    ensures r.Ok? <==>
      Trim(name) != "" && |RemoveSpaces(number)| >= 16 && ExpiryPattern(Trim(expiry))
      && |Trim(cvv)| >= 3 && 1 <= hours <= 24
    ensures r.Ok? ==> r.value == ExtensionRequest(hours, RemoveSpaces(number), Trim(expiry), Trim(cvv), Trim(name))
    ensures r == Err(MissingCardDetails) <==> !CardFieldsFilled(name, number, expiry, cvv)
    ensures r == Err(InvalidDuration) <==> CardFieldsFilled(name, number, expiry, cvv) && !(1 <= hours <= 24)
    ensures r == Err(InvalidCardNumber) <==>
      CardFieldsFilled(name, number, expiry, cvv) && 1 <= hours <= 24 && |RemoveSpaces(number)| < 16
    ensures r == Err(InvalidExpiry) <==>
      CardFieldsFilled(name, number, expiry, cvv) && 1 <= hours <= 24 && |RemoveSpaces(number)| >= 16
      && !ExpiryPattern(Trim(expiry))
    ensures r == Err(InvalidCvv) <==>
      CardFieldsFilled(name, number, expiry, cvv) && 1 <= hours <= 24 && |RemoveSpaces(number)| >= 16
      && ExpiryPattern(Trim(expiry)) && |Trim(cvv)| < 3
    ensures r != Err(HoursOutOfRange)
  {
    var cardName := Trim(name);
    var cardNumber := RemoveSpaces(number);
    var cardExpiry := Trim(expiry);
    var cardCvv := Trim(cvv);
    if cardName == "" || cardNumber == "" || cardExpiry == "" || cardCvv == "" then Err(MissingCardDetails)
    else if hours == 0 || hours < 1 || hours > 24 then Err(InvalidDuration)
    else if |RemoveSpaces(cardNumber)| < 16 then
      FilterAllPass(NotSpace, cardNumber);
      Err(InvalidCardNumber)
    else if !ExpiryPattern(cardExpiry) then Err(InvalidExpiry)
    else if |cardCvv| < 3 then Err(InvalidCvv)
    else
      FilterAllPass(NotSpace, cardNumber);
      Ok(ExtensionRequest(hours, cardNumber, cardExpiry, cardCvv, cardName))
  }

  /** The click handler of the Extend button: the parsed hours must lie in 1..24
      before the form is looked at (`parseInt` failing is `None`). */
  function ExtendClick(hours: Option<int>, name: string, number: string, expiry: string, cvv: string)
    : (r: Result<ExtensionRequest, ExtensionError>)
    ensures hours.None? ==> r == Err(HoursOutOfRange)
    ensures hours.Some? && !(1 <= hours.value <= 24) ==> r == Err(HoursOutOfRange)
    ensures hours.Some? && 1 <= hours.value <= 24 ==> r == ValidateExtension(name, number, expiry, cvv, hours.value)
    ensures r != Err(InvalidDuration)
    ensures r.Ok? ==> hours.Some? && r.value.additionalHours == hours.value
  {
    if hours.Some? && hours.value > 0 && hours.value <= 24 then ValidateExtension(name, number, expiry, cvv, hours.value)
    else Err(HoursOutOfRange)
  }

  /** Whatever was typed, once the field formatters have run a form with a name, 16 card
      digits, 4 expiry digits and 3 CVV digits is accepted with the digits as typed. */
  lemma FormattedFieldsAccepted(name: string, number: string, expiry: string, cvv: string, hours: int)
    requires Trim(name) != "" && 1 <= hours <= 24
    requires |DigitsOnly(number)| >= 16 && |DigitsOnly(expiry)| >= 4 && |DigitsOnly(cvv)| >= 3
    ensures ValidateExtension(name, CardNumberText(number), ExpiryText(expiry), CvvText(cvv), hours).Ok?
    ensures ValidateExtension(name, CardNumberText(number), ExpiryText(expiry), CvvText(cvv), hours).value.cardNumber
      == DigitsOnly(number)[..16]
  {
    FormattedNumber(number);
    FormattedExpiry(expiry);
    FormattedCvv(cvv);
  }

  lemma FormattedNumber(number: string)
    requires |DigitsOnly(number)| >= 16
    ensures RemoveSpaces(CardNumberText(number)) == DigitsOnly(number)[..16]
  {
    CardNumberDigits(number);
  }

  lemma FormattedExpiry(expiry: string)
    requires |DigitsOnly(expiry)| >= 4
    ensures ExpiryPattern(Trim(ExpiryText(expiry)))
  {
    ExpiryLayout(expiry);
    TrimNoSpace(ExpiryText(expiry));
  }

  lemma FormattedCvv(cvv: string)
    requires |DigitsOnly(cvv)| >= 3
    ensures |Trim(CvvText(cvv))| >= 3
  {
    var c := CvvText(cvv);
    assert NoSpace(c);
    TrimNoSpace(c);
  }

  // ---------------------------------------------------------------------------
  // Countdown timer
  // ---------------------------------------------------------------------------

  datatype Clock = Clock(hours: nat, minutes: nat, seconds: nat)

  /** The three fields the timer shows for `s` seconds. */
  function ClockFields(s: nat): (c: Clock)
    ensures c.hours * 3600 + c.minutes * 60 + c.seconds == s
    ensures c.minutes < 60 && c.seconds < 60
  {
    var h := s / 3600;
    var rest := s % 3600;
    assert rest % 60 == s % 60 by {
      assert s == 3600 * h + rest;
      assert s == 60 * (60 * h + rest / 60) + rest % 60;
    }
    Clock(h, rest / 60, s % 60)
  }

  /** Any split of `s` into hours, minutes below 60 and seconds below 60 is the one the timer shows. */
  lemma ClockFieldsUnique(s: nat, c: Clock)
    requires c.minutes < 60 && c.seconds < 60
    requires c.hours * 3600 + c.minutes * 60 + c.seconds == s
    ensures c == ClockFields(s)
  {
    var d := ClockFields(s);
    var x := c.minutes * 60 + c.seconds;
    var y := d.minutes * 60 + d.seconds;
    assert x < 3600 && y < 3600;
    assert (c.hours - d.hours) * 3600 == y - x;
    assert c.hours == d.hours;
    assert (c.minutes - d.minutes) * 60 == d.seconds - c.seconds;
  }

  /** `HH:MM:SS`, each field padded to two digits (hours may be longer). */
  function ClockText(s: nat): string
  {
    var c := ClockFields(s);
    Pad2(c.hours) + ":" + Pad2(c.minutes) + ":" + Pad2(c.seconds)
  }

  /** Reading the timer text back: three digit fields, minutes and seconds of exactly two
      digits, whose values recombine to the remaining seconds. */
  lemma ClockTextReadsBack(s: nat)
    ensures |Split(ClockText(s), ':')| == 3
    ensures forall i :: 0 <= i < 3 ==> AllDigits(Split(ClockText(s), ':')[i]) && |Split(ClockText(s), ':')[i]| >= 2
    ensures |Split(ClockText(s), ':')[1]| == 2 && |Split(ClockText(s), ':')[2]| == 2
    ensures DecimalValue(Split(ClockText(s), ':')[0]) * 3600
          + DecimalValue(Split(ClockText(s), ':')[1]) * 60
          + DecimalValue(Split(ClockText(s), ':')[2]) == s
  {
    var c := ClockFields(s);
    var parts := [Pad2(c.hours), Pad2(c.minutes), Pad2(c.seconds)];
    assert Join(parts, ':') == ClockText(s) by {
      assert Join(parts[2..], ':') == Pad2(c.seconds);
    }
    forall i | 0 <= i < 3 ensures ':' !in parts[i] {
      assert AllDigits(parts[i]);
    }
    SplitJoin(parts, ':');
  }

  /** The three colours of the timer. */
  datatype TimerClass = Danger | Warning | Plain

  /** The class chosen from the hours field. */
  function Band(hours: nat): TimerClass
  {
    if hours < 1 then Danger else if hours < 2 then Warning else Plain
  }

  /** In terms of the remaining seconds: danger under an hour, warning under two hours. */
  lemma BandBySeconds(s: nat)
    ensures Band(ClockFields(s).hours) == Danger <==> s < 3600
    ensures Band(ClockFields(s).hours) == Warning <==> 3600 <= s < 7200
    ensures Band(ClockFields(s).hours) == Plain <==> s >= 7200
  {
  }

  datatype TimerView = TimerView(text: string, cls: TimerClass)

  /** What one run of `updateTimer` shows for `s` remaining seconds. */
  function TimerDisplay(s: int): (v: TimerView)
    ensures v.text == ClockText(if s <= 0 then 0 else s)
    ensures v.cls == Danger <==> s < 3600
    ensures v.cls == Warning <==> 3600 <= s < 7200
  {
    if s <= 0 then
      assert ClockText(0) == "00:00:00";
      TimerView("00:00:00", Danger)
    else
      BandBySeconds(s);
      TimerView(ClockText(s), Band(ClockFields(s).hours))
  }

  /**
    The state `startCountdownTimer` keeps for one session: the remaining seconds of its
    closure, what the timer element shows, whether the interval is scheduled, and the
    status badges of the header.
  */
  class Countdown {
    var remainingSeconds: int
    var view: TimerView
    var ticking: bool
    var expiredBadges: nat
    var activeBadge: bool

    /** While the timer runs nothing has expired; once it stops the session shows one EXPIRED badge. */
    ghost predicate Valid()
      reads this
    {
      && expiredBadges <= 1
      && (ticking ==> expiredBadges == 0 && activeBadge)
      && (!ticking ==> expiredBadges == 1 && !activeBadge && remainingSeconds <= 0 && view == TimerDisplay(0))
    }

    /** `updateTimer`. */
    method Update()
      modifies this
      ensures old(remainingSeconds) <= 0 ==>
        && remainingSeconds == old(remainingSeconds) && view == TimerDisplay(0) && !ticking
        && expiredBadges == old(expiredBadges) + 1 && !activeBadge
      ensures old(remainingSeconds) > 0 ==>
        && remainingSeconds == old(remainingSeconds) - 1 && view == TimerDisplay(old(remainingSeconds))
        && ticking == old(ticking) && expiredBadges == old(expiredBadges) && activeBadge == old(activeBadge)
    {
      if remainingSeconds <= 0 {
        ticking := false;
        view := TimerView("00:00:00", Danger);
        expiredBadges := expiredBadges + 1;
        activeBadge := false;
        return;
      }
      var c := ClockFields(remainingSeconds);
      view := TimerView(ClockText(remainingSeconds), Band(c.hours));
      remainingSeconds := remainingSeconds - 1;
    }

    /** The timer as started: one immediate update, then the interval is scheduled
        whatever that update found. */
    constructor StartAsWritten(initialSeconds: int)
      ensures remainingSeconds == if initialSeconds > 0 then initialSeconds - 1 else initialSeconds
      ensures view == TimerDisplay(initialSeconds) && ticking
      ensures expiredBadges == (if initialSeconds > 0 then 0 else 1)
      ensures activeBadge == (initialSeconds > 0)
    {
      remainingSeconds := initialSeconds;
      view := TimerView("", Plain);
      ticking := false;
      expiredBadges := 0;
      activeBadge := true;
      new;
      Update();
      ticking := true;
    }

    /** The timer started as intended: the interval is scheduled only when the
        immediate update did not already find the session expired. */
    constructor Start(initialSeconds: int)
      ensures Valid()
      ensures remainingSeconds == if initialSeconds > 0 then initialSeconds - 1 else initialSeconds
      ensures view == TimerDisplay(initialSeconds)
      ensures ticking == (initialSeconds > 0)
    {
      remainingSeconds := initialSeconds;
      view := TimerView("", Plain);
      ticking := true;
      expiredBadges := 0;
      activeBadge := true;
      new;
      Update();
    }

    /** One firing of the interval. */
    method Tick()
      requires Valid() && ticking
      modifies this
      ensures Valid()
      ensures old(remainingSeconds) > 0 ==> remainingSeconds == old(remainingSeconds) - 1 && ticking
      ensures view == TimerDisplay(old(remainingSeconds))
      ensures ticking <==> old(remainingSeconds) > 0
    {
      Update();
    }
  }

  /** A session that has already run out when it is displayed gets two EXPIRED badges:
      one from the immediate update and one from the first firing of the interval. */
  method ExpiredTwiceAsWritten() returns (badges: nat)
    ensures badges == 2
  {
    var timer := new Countdown.StartAsWritten(0);
    timer.Update();
    badges := timer.expiredBadges;
  }

  /** `Math.max(0, Math.floor((endTime - now) / 1000))` with the end time
      `time_in + duration_hours` hours, all in milliseconds. */
  function InitialRemaining(timeIn: int, durationHours: int, now: int): (r: nat)
    ensures var left := timeIn + durationHours * 3600000 - now;
      (left < 0 ==> r == 0) && (left >= 0 ==> r * 1000 <= left < r * 1000 + 1000)
  {
    var left := timeIn + durationHours * 3600000 - now;
    if left / 1000 < 0 then 0 else left / 1000
  }

  // ---------------------------------------------------------------------------
  // Active session
  // ---------------------------------------------------------------------------

  /** The fields of an active session that the dashboard uses. */
  datatype Session = Session(referenceNumber: string, timeIn: int, durationHours: int)

  /** `currentSessionId` and `currentSessionData`. */
  class SessionView {
    var currentSessionId: Option<string>
    var currentSessionData: Option<Session>

    /** The id is the reference of the data, and both are set or both are null. */
    ghost predicate Valid()
      reads this
    {
      match currentSessionData
      case None => currentSessionId.None?
      case Some(s) => currentSessionId == Some(s.referenceNumber)
    }

    constructor ()
      ensures Valid() && currentSessionId.None? && currentSessionData.None?
    {
      currentSessionId := None;
      currentSessionData := None;
    }

    /** `loadActiveParkingSession` after a successful fetch. The session is redrawn, and
        `redraw` gives the seconds the new countdown starts from, only when the reference differs. */
    method LoadAsWritten(active: Option<Session>, now: int) returns (redraw: Option<nat>)
      requires Valid()
      modifies this
      ensures Valid()
      ensures active.None? ==> currentSessionData.None? && redraw.None?
      ensures active.Some? && old(currentSessionId) == Some(active.value.referenceNumber) ==>
        currentSessionData == old(currentSessionData) && redraw.None?
      ensures active.Some? && old(currentSessionId) != Some(active.value.referenceNumber) ==>
        currentSessionData == active
        && redraw == Some(InitialRemaining(active.value.timeIn, active.value.durationHours, now))
    {
      redraw := None;
      match active {
        case Some(s) =>
          if currentSessionId != Some(s.referenceNumber) {
            currentSessionId := Some(s.referenceNumber);
            currentSessionData := Some(s);
            redraw := Some(InitialRemaining(s.timeIn, s.durationHours, now));
          }
        case None =>
          currentSessionId := None;
          currentSessionData := None;
      }
    }

    /** The update the comment beside it promises: replace (and redraw) when the session is
        new or its data has changed, so the data held is always the data last loaded. */
    method Load(active: Option<Session>, now: int) returns (redraw: Option<nat>)
      requires Valid()
      modifies this
      ensures Valid()
      ensures currentSessionData == active
      ensures redraw.Some? <==> active.Some? && active != old(currentSessionData)
      ensures redraw.Some? ==> redraw.value == InitialRemaining(active.value.timeIn, active.value.durationHours, now)
    {
      redraw := None;
      match active {
        case Some(s) =>
          if currentSessionData != Some(s) {
            currentSessionId := Some(s.referenceNumber);
            currentSessionData := Some(s);
            redraw := Some(InitialRemaining(s.timeIn, s.durationHours, now));
          }
        case None =>
          currentSessionId := None;
          currentSessionData := None;
      }
    }

    /** `endParking`: the session is forgotten only when the user confirmed and the server agreed. */
    method EndParking(confirmed: bool, serverOk: bool)
      requires Valid()
      modifies this
      ensures Valid()
      ensures confirmed && serverOk ==> currentSessionId.None? && currentSessionData.None?
      ensures !(confirmed && serverOk) ==>
        currentSessionId == old(currentSessionId) && currentSessionData == old(currentSessionData)
    {
      if confirmed && serverOk {
        currentSessionId := None;
        currentSessionData := None;
      }
    }
  }

  /** After a two-hour session is extended by an hour the reload brings the same reference
      with three hours, yet the view keeps two hours and the countdown is not restarted. */
  method StaleAfterExtensionAsWritten() returns (heldHours: int, redraw: Option<nat>)
    ensures heldHours == 2 && redraw.None?
  {
    var view := new SessionView();
    var before := Session("PK-1", 0, 2);
    var after := Session("PK-1", 0, 3);
    var first := view.LoadAsWritten(Some(before), 0);
    redraw := view.LoadAsWritten(Some(after), 1000);
    heldHours := view.currentSessionData.value.durationHours;
  }

  /** With the corrected rule the same reload redraws the timer from the extended end time. */
  method FreshAfterExtension() returns (heldHours: int, redraw: Option<nat>)
    ensures heldHours == 3 && redraw == Some(10799)
  {
    var view := new SessionView();
    var before := Session("PK-1", 0, 2);
    var after := Session("PK-1", 0, 3);
    var first := view.Load(Some(before), 0);
    redraw := view.Load(Some(after), 1000);
    heldHours := view.currentSessionData.value.durationHours;
  }
}
