/** `validateEventData`, the guard in front of `POST /api/events`: an ordered
    chain of checks in which the first one that fails picks the 400 message. */
module EventValidation {
  import opened Records

  /** The fields of the request body the guard reads. `dateValid` stands for
      "a date is present and `new Date(date)` parses to a valid time". */
  datatype EventData = EventData(
    title: Option<string>,
    dateValid: bool,
    time: Option<string>,
    duration: Option<int>,
    instructor: Option<InstructorId>,
    maxSeats: Option<int>)

  /** Why the guard refused the body, in the order the checks run. */
  datatype Rejection =
    | TitleRequired
    | DateInvalid
    | TimeFormat
    | DurationRange
    | InstructorRequired
    | SeatsTooFew
  {
    /** The message of the 400 response. */
    function Message(): string
    {
      match this
      case TitleRequired => "Title is required"
      case DateInvalid => "Valid date is required"
      case TimeFormat => "Time must be in HH:MM format"
      case DurationRange => "Duration must be between 15 and 240 minutes"
      case InstructorRequired => "Instructor is required"
      case SeatsTooFew => "Maximum seats must be at least 1"
    }
  }

  /** The characters `String.prototype.trim` strips: the ECMAScript WhiteSpace
      and LineTerminator code points. */
  predicate IsJsWhitespace(c: char)
  {
    || c == '\t' || c == '\n' || c == '\U{000B}' || c == '\U{000C}' || c == '\r'
    || c == ' ' || c == '\U{00A0}' || c == '\U{1680}'
    || ('\U{2000}' <= c <= '\U{200A}')
    || c == '\U{2028}' || c == '\U{2029}' || c == '\U{202F}' || c == '\U{205F}'
    || c == '\U{3000}' || c == '\U{FEFF}'
  }

  /** `s` without its leading whitespace. */
  function TrimStart(s: string): (r: string)
    ensures |r| <= |s| && r == s[|s| - |r|..]
    ensures forall i :: 0 <= i < |s| - |r| ==> IsJsWhitespace(s[i])
    ensures r != [] ==> !IsJsWhitespace(r[0])
  {
    if s != [] && IsJsWhitespace(s[0]) then TrimStart(s[1..]) else s
  }

  /** `s` without its trailing whitespace. */
  function TrimEnd(s: string): (r: string)
    ensures |r| <= |s| && r == s[..|r|]
    ensures forall i :: |r| <= i < |s| ==> IsJsWhitespace(s[i])
    ensures r != [] ==> !IsJsWhitespace(r[|r| - 1])
  {
    if s != [] && IsJsWhitespace(s[|s| - 1]) then TrimEnd(s[..|s| - 1]) else s
  }

  /** `String.prototype.trim`. */
  function Trim(s: string): (r: string)
    ensures r != [] ==> !IsJsWhitespace(r[0]) && !IsJsWhitespace(r[|r| - 1])
    ensures var k := |s| - |TrimStart(s)|;
      && k + |r| <= |s| && r == s[k..k + |r|]
      && (forall i :: 0 <= i < k ==> IsJsWhitespace(s[i]))
      && (forall i :: k + |r| <= i < |s| ==> IsJsWhitespace(s[i]))
  {
    TrimEnd(TrimStart(s))
  }

  /** A string trims to the empty string exactly when all of it is whitespace. */
  lemma TrimEmptyIffBlank(s: string)
    ensures Trim(s) == [] <==> forall i :: 0 <= i < |s| ==> IsJsWhitespace(s[i])
  {
    var t := TrimStart(s);
    if t != [] {
      assert t[0] == s[|s| - |t|] && !IsJsWhitespace(t[0]);
      assert TrimEnd(t) != [];
    }
  }

  /** `!title?.trim()`: the title is missing or trims to the empty string. */
  predicate NoTitle(title: Option<string>)
    ensures NoTitle(title) <==> title.None? || forall i :: 0 <= i < |title.value| ==> IsJsWhitespace(title.value[i])
  {
    match title
    case None => true
    case Some(t) => TrimEmptyIffBlank(t); Trim(t) == ""
  }

  predicate IsDigit(c: char)
  {
    '0' <= c <= '9'
  }

  /** `/^\d{2}:\d{2}$/`: two digits, a colon, two digits, nothing else. */
  predicate IsClockTime(t: string)
    ensures IsClockTime(t) ==> forall c :: c in t ==> IsDigit(c) || c == ':'
  {
    |t| == 5 && IsDigit(t[0]) && IsDigit(t[1]) && t[2] == ':' && IsDigit(t[3]) && IsDigit(t[4])
  }

  // The six conditions of an acceptable body, each stated plainly.
  predicate HasTitle(d: EventData) { d.title.Some? && exists i :: 0 <= i < |d.title.value| && !IsJsWhitespace(d.title.value[i]) }
  predicate HasTime(d: EventData) { d.time.Some? && IsClockTime(d.time.value) }
  predicate HasDuration(d: EventData) { d.duration.Some? && 15 <= d.duration.value <= 240 }
  predicate HasSeats(d: EventData) { d.maxSeats.Some? && d.maxSeats.value >= 1 }

  /** The conditions in the order the guard checks them. */
  function Checks(d: EventData): seq<bool>
  {
    [HasTitle(d), d.dateValid, HasTime(d), HasDuration(d), d.instructor.Some?, HasSeats(d)]
  }

  /** The rejection each check reports, in the same order. */
  const CheckOrder: seq<Rejection> :=
    [TitleRequired, DateInvalid, TimeFormat, DurationRange, InstructorRequired, SeatsTooFew]

  /** The position of the first false entry, or `|cs|` when there is none. */
  function FirstFailing(cs: seq<bool>): (k: nat)
    ensures k <= |cs|
    ensures forall j :: 0 <= j < k ==> cs[j]
    ensures k < |cs| ==> !cs[k]
  {
    if cs == [] then 0 else if !cs[0] then 0 else 1 + FirstFailing(cs[1..])
  }

  /** The guard as the source writes it: each test is the negation of a
      JavaScript truthiness check (`!title?.trim()`, `!duration || duration < 15`, ...).
      `None` means the request is passed on. */
  function ValidateEventData(d: EventData): (r: Option<Rejection>)
    ensures r.None? <==>
      HasTitle(d) && d.dateValid && HasTime(d) && HasDuration(d) && d.instructor.Some? && HasSeats(d)
  {
    if NoTitle(d.title) then Some(TitleRequired)
    else if !d.dateValid then Some(DateInvalid)
    else if d.time.None? || !IsClockTime(d.time.value) then Some(TimeFormat)
    else if d.duration.None? || d.duration.value == 0 || d.duration.value < 15 || d.duration.value > 240 then Some(DurationRange)
    else if d.instructor.None? then Some(InstructorRequired)
    else if d.maxSeats.None? || d.maxSeats.value == 0 || d.maxSeats.value < 1 then Some(SeatsTooFew)
    else None
  }

  /** The guard reports the rejection of the first check, in source order, that
      fails, and passes the request on exactly when none fails. */
  lemma ValidateReportsFirstFailure(d: EventData)
    ensures var k := FirstFailing(Checks(d));
      ValidateEventData(d) == if k < |CheckOrder| then Some(CheckOrder[k]) else None
  {
    var cs := Checks(d);
    assert |cs| == |CheckOrder| == 6;
    assert cs[0] == HasTitle(d) && cs[1] == d.dateValid && cs[2] == HasTime(d);
    assert cs[3] == HasDuration(d) && cs[4] == d.instructor.Some? && cs[5] == HasSeats(d);
    var k := FirstFailing(cs);
    assert NoTitle(d.title) <==> !HasTitle(d);
    if !HasTitle(d) {
      assert k == 0;
    } else if !d.dateValid {
      assert k == 1;
    } else if !HasTime(d) {
      assert k == 2;
    } else if !HasDuration(d) {
      assert k == 3;
    } else if d.instructor.None? {
      assert k == 4;
    } else if !HasSeats(d) {
      assert k == 5;
    } else {
      assert k == 6;
    }
  }
}
