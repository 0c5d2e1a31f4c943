/**
  The vehicle page (public/vManage.js): the licence-plate input, its normalisation and
  validation, the four-vehicle limit, and the parking-history popup (duration text,
  CSV text, de-duplicated plate filter, row filtering).
*/
module VehicleManage {
  import opened Wrappers
  import opened Text

  const MaxVehicles: nat := 4

  // ---------------------------------------------------------------------------
  // Licence plates
  // ---------------------------------------------------------------------------

  predicate IsPlateChar(c: char) { IsUpper(c) || IsDigit(c) || c == ' ' }

  /** `validateLicensePlate`: two to eight characters from A-Z, 0-9 and space. */
  predicate ValidateLicensePlate(plate: string): (ok: bool)
    ensures ok <==> 2 <= |plate| <= 8 && Sanitize(plate) == plate
  {
    SanitizeFixes(plate);
    2 <= |plate| <= 8 && forall i :: 0 <= i < |plate| ==> IsPlateChar(plate[i])
  }

  /** The input handler: upper-case, then drop every character outside A-Z, 0-9 and space. */
  function Sanitize(value: string): (r: string)
    ensures forall i :: 0 <= i < |r| ==> IsPlateChar(r[i])
    ensures |r| <= |value|
  {
    Filter(IsPlateChar, Upper(value))
  }

  /** The input handler leaves a value alone exactly when it holds only plate characters. */
  lemma SanitizeFixes(value: string)
    ensures Sanitize(value) == value <==> forall i :: 0 <= i < |value| ==> IsPlateChar(value[i])
  {
    if forall i :: 0 <= i < |value| ==> IsPlateChar(value[i]) {
      assert Upper(value) == value;
      FilterAllPass(IsPlateChar, value);
    }
  }

  /** Sanitising twice is sanitising once. */
  lemma SanitizeIdempotent(value: string)
    ensures Sanitize(Sanitize(value)) == Sanitize(value)
  {
    var r := Sanitize(value);
    assert Upper(r) == r;
    FilterAllPass(IsPlateChar, r);
  }

  /** A character the handler keeps is an upper-cased character of the input. */
  lemma SanitizeKeeps(value: string, c: char)
    ensures c in Sanitize(value) <==> IsPlateChar(c) && c in Upper(value)
  {
    FilterMembers(IsPlateChar, Upper(value), c);
  }

  /** `replace(/\s+/g, ' ')`, scanning left to right; `afterSpace` says the previous
      character was whitespace (and already produced its single space). */
  function CollapseFrom(s: string, afterSpace: bool): (r: string)
    ensures |r| <= |s|
    ensures forall i :: 0 <= i < |r| ==> r[i] == ' ' || (r[i] in s && !IsSpace(r[i]))
    ensures forall i :: 0 < i < |r| ==> !(IsSpace(r[i - 1]) && IsSpace(r[i]))
    ensures afterSpace && r != [] ==> !IsSpace(r[0])
    decreases |s|
  {
    if s == [] then []
    else if IsSpace(s[0]) then (if afterSpace then [] else [' ']) + CollapseFrom(s[1..], true)
    else [s[0]] + CollapseFrom(s[1..], false)
  }

  function CollapseSpaces(s: string): string
  {
    CollapseFrom(s, false)
  }

  /** Collapsing whitespace keeps every other character, in order. */
  lemma {:induction false} CollapseKeepsText(s: string, afterSpace: bool)
    ensures RemoveSpaces(CollapseFrom(s, afterSpace)) == RemoveSpaces(s)
    decreases |s|
  {
    if s != [] {
      CollapseKeepsText(s[1..], IsSpace(s[0]));
      var h := if IsSpace(s[0]) then (if afterSpace then "" else " ") else [s[0]];
      FilterConcat(NotSpace, h, CollapseFrom(s[1..], IsSpace(s[0])));
      assert s == [s[0]] + s[1..];
      FilterConcat(NotSpace, [s[0]], s[1..]);
    }
  }

  /** The plate the Add button works with: trimmed, whitespace runs collapsed, trimmed again. */
  function NormalizePlate(value: string): (n: string)
    ensures |n| <= |value|
    ensures n == [] || (!IsSpace(n[0]) && !IsSpace(n[|n| - 1]))
  {
    Trim(CollapseSpaces(Trim(value)))
  }

  /** The normal form: only plate characters, no whitespace at either end, never two spaces in a
      row, no longer than the field, and the same letters and digits in the same order. */
  lemma NormalForm(value: string)
    requires forall i :: 0 <= i < |value| ==> IsPlateChar(value[i])
    ensures var n := NormalizePlate(value);
      && |n| <= |value|
      && (forall i :: 0 <= i < |n| ==> IsPlateChar(n[i]))
      && (n != [] ==> !IsSpace(n[0]) && !IsSpace(n[|n| - 1]))
      && (forall i :: 0 < i < |n| ==> !(n[i - 1] == ' ' && n[i] == ' '))
      && RemoveSpaces(n) == RemoveSpaces(value)
  {
    NormalChars(value);
    NormalSingleSpaces(value);
    NormalKeepsText(value);
  }

  lemma NormalChars(value: string)
    requires forall i :: 0 <= i < |value| ==> IsPlateChar(value[i])
    ensures forall i :: 0 <= i < |NormalizePlate(value)| ==> IsPlateChar(NormalizePlate(value)[i])
  {
    var t := Trim(value);
    var c := CollapseSpaces(t);
    var n := Trim(c);
    TrimSlice(value);
    TrimSlice(c);
    var a := |c| - |TrimStart(c)|;
    forall i | 0 <= i < |n| ensures IsPlateChar(n[i]) {
      assert n[i] == c[a + i];
      if n[i] != ' ' {
        assert n[i] in t;
        var j :| 0 <= j < |t| && t[j] == n[i];
        assert t[j] == value[|value| - |TrimStart(value)| + j];
      }
    }
  }

  lemma NormalSingleSpaces(value: string)
    ensures forall i :: 0 < i < |NormalizePlate(value)| ==>
      !(NormalizePlate(value)[i - 1] == ' ' && NormalizePlate(value)[i] == ' ')
  {
    var c := CollapseSpaces(Trim(value));
    var n := Trim(c);
    TrimSlice(c);
    var a := |c| - |TrimStart(c)|;
    forall i | 0 < i < |n| ensures !(n[i - 1] == ' ' && n[i] == ' ') {
      assert n[i - 1] == c[a + i - 1] && n[i] == c[a + i];
    }
  }

  lemma NormalKeepsText(value: string)
    ensures RemoveSpaces(NormalizePlate(value)) == RemoveSpaces(value)
  {
    var t := Trim(value);
    TrimKeepsText(value);
    CollapseKeepsText(t, false);
    TrimKeepsText(CollapseSpaces(t));
  }

  lemma FilterEnds(p: char -> bool, s: string)
    requires |s| >= 2 && p(s[0]) && p(s[|s| - 1])
    ensures |Filter(p, s)| >= 2
  {
    var mid := s[1..|s| - 1];
    assert s == [s[0]] + mid + [s[|s| - 1]];
    FilterConcat(p, [s[0]] + mid, [s[|s| - 1]]);
    FilterConcat(p, [s[0]], mid);
  }

  datatype AddOutcome = Ignored | InvalidPlate | LimitReached | Added(plate: string)

  /** The Add button of the form: an empty plate does nothing, an invalid one is refused. */
  function SubmitPlate(fieldValue: string): (r: AddOutcome)
    ensures r.Added? ==> ValidateLicensePlate(r.plate) && r.plate == NormalizePlate(fieldValue)
    ensures r != LimitReached
  {
    var plate := NormalizePlate(fieldValue);
    if plate == "" then Ignored
    else if !ValidateLicensePlate(plate) then InvalidPlate
    else Added(plate)
  }

  /** For what the input field can hold (sanitised, at most eight characters) the outcome
      depends only on how many letters and digits were typed: none, one, or two or more. */
  lemma SubmitByLettersAndDigits(fieldValue: string)
    requires |fieldValue| <= 8
    requires forall i :: 0 <= i < |fieldValue| ==> IsPlateChar(fieldValue[i])
    ensures SubmitPlate(fieldValue) == Ignored <==> RemoveSpaces(fieldValue) == []
    ensures SubmitPlate(fieldValue) == InvalidPlate <==> |RemoveSpaces(fieldValue)| == 1
    ensures SubmitPlate(fieldValue).Added? <==> |RemoveSpaces(fieldValue)| >= 2
  {
    var n := NormalizePlate(fieldValue);
    NormalForm(fieldValue);
    if n == [] {
      assert RemoveSpaces(n) == [];
    } else if |n| == 1 {
      assert n == [n[0]];
      assert RemoveSpaces(n) == [n[0]];
    } else {
      FilterEnds(NotSpace, n);
    }
  }

  /** The whole add flow: the form opens only below the limit (first count), and the vehicle is
      posted only if the count fetched again on submission is still below it. */
  function AddVehicleFlow(countOnOpen: nat, fieldValue: string, countOnSubmit: nat): (r: AddOutcome)
    ensures r.Added? ==> countOnOpen < MaxVehicles && countOnSubmit < MaxVehicles && ValidateLicensePlate(r.plate)
    ensures countOnOpen >= MaxVehicles ==> r == LimitReached
    ensures countOnOpen < MaxVehicles && !SubmitPlate(fieldValue).Added? ==> r == SubmitPlate(fieldValue)
    ensures countOnOpen < MaxVehicles && SubmitPlate(fieldValue).Added? ==>
      r == (if countOnSubmit < MaxVehicles then SubmitPlate(fieldValue) else LimitReached)
  {
    if countOnOpen >= MaxVehicles then LimitReached
    else
      match SubmitPlate(fieldValue)
      case Added(plate) => if countOnSubmit >= MaxVehicles then LimitReached else Added(plate)
      case other => other
  }

  /** The Add-vehicle button as `loadUserVehicles` leaves it. */
  class AddButton {
    var disabled: bool

    constructor ()
      ensures !disabled
    {
      disabled := false;
    }

    /** As written: disabled at four or more vehicles, never enabled again. */
    method LoadVehiclesAsWritten(count: nat)
      modifies this
      ensures disabled == (old(disabled) || count >= MaxVehicles)
    {
      if count >= MaxVehicles {
        disabled := true;
      }
    }

    /** As intended: disabled exactly while the user is at the limit. */
    method LoadVehicles(count: nat)
      modifies this
      ensures disabled <==> count >= MaxVehicles
    {
      disabled := count >= MaxVehicles;
    }
  }

  /** Removing one of four vehicles leaves the button disabled. */
  method StaysDisabledAsWritten() returns (disabled: bool)
    ensures disabled
  {
    var button := new AddButton();
    button.LoadVehiclesAsWritten(4);
    button.LoadVehiclesAsWritten(3);
    disabled := button.disabled;
  }

  // ---------------------------------------------------------------------------
  // Duration text
  // ---------------------------------------------------------------------------

  datatype HoursMinutes = HoursMinutes(hours: int, minutes: int)

  /** `Math.floor(diff / 3600000)` and `Math.floor((diff % 3600000) / 60000)` with JavaScript's `%`. */
  function DurationFields(diffMs: int): (d: HoursMinutes)
    ensures diffMs >= 0 ==> 0 <= d.minutes < 60 && d.hours * 60 + d.minutes == diffMs / 60000
    ensures diffMs >= 0 ==> d.hours * 3600000 <= diffMs < (d.hours + 1) * 3600000
  {
    HoursMinutes(diffMs / 3600000, JsRem(diffMs, 3600000) / 60000)
  }

  /** `calculateDuration(start, end)` with the two times in milliseconds (`None` for a missing one). */
  function CalculateDuration(start: Option<int>, end: Option<int>): (r: string)
    ensures start.None? ==> r == "N/A"
    ensures start.Some? && end.None? ==> r == "Active"
    ensures start.Some? && end.Some? ==>
      r == IntToString(DurationFields(end.value - start.value).hours) + "h "
         + IntToString(DurationFields(end.value - start.value).minutes) + "m"
  {
    if start.None? then "N/A"
    else if end.None? then "Active"
    else
      var d := DurationFields(end.value - start.value);
      IntToString(d.hours) + "h " + IntToString(d.minutes) + "m"
  }

  // ---------------------------------------------------------------------------
  // CSV text
  // ---------------------------------------------------------------------------

  function RowLines(rows: seq<seq<string>>): (r: seq<string>)
    ensures |r| == |rows| && forall i :: 0 <= i < |rows| ==> r[i] == Join(rows[i], ',')
  {
    seq(|rows|, i requires 0 <= i < |rows| => Join(rows[i], ','))
  }

  /** The text `createCSVDownload` puts in the file. */
  function CsvContent(headers: seq<string>, rows: seq<seq<string>>): (csv: string)
    ensures rows == [] ==> csv == Join(headers, ',')
    ensures rows != [] ==> StartsWith(csv, Join(headers, ',') + "\n")
  {
    var lines := [Join(headers, ',')] + RowLines(rows);
    assert lines[1..] == RowLines(rows);
    Join(lines, '\n')
  }

  predicate NoLineBreaks(fields: seq<string>) { forall i :: 0 <= i < |fields| ==> '\n' !in fields[i] }

  /** With no line break inside a field the file has the header line and then one line per row,
      so rows + 1 lines. */
  lemma CsvLines(headers: seq<string>, rows: seq<seq<string>>)
    requires NoLineBreaks(headers)
    requires forall r :: 0 <= r < |rows| ==> NoLineBreaks(rows[r])
    ensures Split(CsvContent(headers, rows), '\n') == [Join(headers, ',')] + RowLines(rows)
    ensures |Split(CsvContent(headers, rows), '\n')| == |rows| + 1
  {
    var lines := [Join(headers, ',')] + RowLines(rows);
    forall i | 0 <= i < |lines| ensures '\n' !in lines[i] {
      if i == 0 {
        JoinAvoids(headers, ',', '\n');
      } else {
        JoinAvoids(rows[i - 1], ',', '\n');
      }
    }
    SplitJoin(lines, '\n');
  }

  /** Without commas or line breaks in the fields, every row can be read back from its line. */
  lemma CsvRowsReadBack(headers: seq<string>, rows: seq<seq<string>>, r: nat)
    requires NoLineBreaks(headers)
    requires forall k :: 0 <= k < |rows| ==> NoLineBreaks(rows[k])
    requires r < |rows| && |rows[r]| >= 1
    requires forall i :: 0 <= i < |rows[r]| ==> ',' !in rows[r][i]
    ensures var lines := Split(CsvContent(headers, rows), '\n');
      |lines| == |rows| + 1 && Split(lines[r + 1], ',') == rows[r]
  {
    CsvLines(headers, rows);
    SplitJoin(rows[r], ',');
  }

  // ---------------------------------------------------------------------------
  // History popup
  // ---------------------------------------------------------------------------

  /** `[...new Set(plates)]`: each plate once, in order of first appearance. */
  function Distinct(s: seq<string>): (r: seq<string>)
    ensures forall x :: x in r <==> x in s
    ensures forall i, j :: 0 <= i < j < |r| ==> r[i] != r[j]
    ensures s != [] ==> r != [] && r[0] == s[0]
    decreases |s|
  {
    if s == [] then []
    else
      var d := Distinct(s[..|s| - 1]);
      assert forall x :: x in s <==> x in s[..|s| - 1] || x == s[|s| - 1] by {
        assert s == s[..|s| - 1] + [s[|s| - 1]];
      }
      if s[|s| - 1] in d then d else d + [s[|s| - 1]]
  }

  /** Where `x` first appears in `s`. */
  function FirstIndex(s: seq<string>, x: string): (k: nat)
    requires x in s
    ensures k < |s| && s[k] == x
    ensures forall j :: 0 <= j < k ==> s[j] != x
  {
    if s[0] == x then 0
    else
      var k := 1 + FirstIndex(s[1..], x);
      assert forall j :: 1 <= j < k ==> s[j] == s[1..][j - 1];
      k
  }

  /** The filter lists the plates in the order in which each first appears in the history. */
  lemma {:induction false} DistinctFirstOccurrenceOrder(s: seq<string>)
    ensures forall i, j :: 0 <= i < j < |Distinct(s)| ==>
      FirstIndex(s, Distinct(s)[i]) < FirstIndex(s, Distinct(s)[j])
    decreases |s|
  {
    if s != [] {
      var p, y := s[..|s| - 1], s[|s| - 1];
      assert s == p + [y];
      DistinctFirstOccurrenceOrder(p);
      var d := Distinct(p);
      forall x | x in d ensures FirstIndex(s, x) == FirstIndex(p, x) {
        var m := FirstIndex(p, x);
        assert s[m] == x;
      }
      if y !in d {
        assert FirstIndex(s, y) == |p|;
      }
    }
  }

  /** The plate filter is offered exactly when the history holds two different plates. */
  lemma DistinctMoreThanOne(s: seq<string>)
    requires s != []
    ensures |Distinct(s)| > 1 <==> exists i :: 0 <= i < |s| && s[i] != s[0]
  {
    var d := Distinct(s);
    if |d| > 1 {
      assert d[1] in s;
      var i :| 0 <= i < |s| && s[i] == d[1];
      assert s[i] != s[0];
    }
    if exists i :: 0 <= i < |s| && s[i] != s[0] {
      var i :| 0 <= i < |s| && s[i] != s[0];
      assert s[i] in d;
      var j :| 0 <= j < |d| && d[j] == s[i];
      assert j != 0;
    }
  }

  /** The rows of the history table (the plate each row carries, `""` for the message row), which
      of them are displayed, and the plate filter once it has been added. */
  class HistoryTable {
    var rowPlates: seq<string>
    var shown: array<bool>
    var filterPresent: bool
    var filterOptions: seq<string>

    ghost predicate Valid()
      reads this
    {
      shown.Length == |rowPlates| && (filterPresent ==> |filterOptions| >= 3 && filterOptions[0] == "all")
    }

    constructor ()
      ensures Valid() && rowPlates == [] && !filterPresent
    {
      rowPlates := [];
      shown := new bool[0];
      filterPresent := false;
      filterOptions := [];
    }

    /** `addVehicleFilter(plates)`: inserted once; later calls find it and return. */
    method AddVehicleFilter(plates: seq<string>)
      requires Valid() && |plates| >= 2
      modifies this
      ensures Valid() && filterPresent
      ensures old(filterPresent) ==> filterOptions == old(filterOptions)
      ensures !old(filterPresent) ==> filterOptions == ["all"] + plates
      ensures rowPlates == old(rowPlates) && shown == old(shown)
    {
      if filterPresent {
        return;
      }
      filterPresent := true;
      filterOptions := ["all"] + plates;
    }

    /** `loadHistoryData` after a successful fetch: one displayed row per item, or the
        message row for an empty history; the filter is added when two plates differ. */
    method LoadHistory(itemPlates: seq<string>)
      requires Valid()
      modifies this
      ensures Valid() && fresh(shown)
      ensures rowPlates == if itemPlates == [] then [""] else itemPlates
      ensures forall i :: 0 <= i < shown.Length ==> shown[i]
      ensures filterPresent == (old(filterPresent) || |Distinct(itemPlates)| > 1)
      ensures old(filterPresent) ==> filterOptions == old(filterOptions)
      ensures !old(filterPresent) && |Distinct(itemPlates)| > 1 ==> filterOptions == ["all"] + Distinct(itemPlates)
    {
      if itemPlates == [] {
        rowPlates := [""];
        shown := new bool[1](_ => true);
        return;
      }
      rowPlates := itemPlates;
      shown := new bool[|itemPlates|](_ => true);
      var uniquePlates := Distinct(itemPlates);
      if |uniquePlates| > 1 {
        AddVehicleFilter(uniquePlates);
      }
    }

    /** `filterHistoryByVehicle`: a row is displayed exactly when "all" is selected or it
        carries the selected plate. */
    method FilterByVehicle(selectedPlate: string)
      requires Valid()
      modifies shown
      ensures forall i :: 0 <= i < shown.Length ==> (shown[i] <==> selectedPlate == "all" || rowPlates[i] == selectedPlate)
    {
      var i := 0;
      while i < shown.Length
        invariant 0 <= i <= shown.Length
        invariant forall k :: 0 <= k < i ==> (shown[k] <==> selectedPlate == "all" || rowPlates[k] == selectedPlate)
      {
        shown[i] := selectedPlate == "all" || rowPlates[i] == selectedPlate;
        i := i + 1;
      }
    }
  }
}
