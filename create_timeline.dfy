/** The "add a time record" modal: four free-text time fields, a chosen
    todo, and the guard chain that turns them into one create-timeline
    request.

    An instant is an absolute minute number, `day * 1440 + hour * 60 + minute`,
    where `day` is a calendar-day number. Both instants of a request are built
    from the same selected date, so they share its seconds and the difference
    of two instants in seconds is exactly 60 times their difference here.
    Hours and minutes past their usual range carry over, as the date library's
    `hour(...)` and `minute(...)` setters do. */
module CreateTimeline {
  import opened JsText
  import opened TodoTypes

  /** The hour at which a schedule-day begins (05:00). */
  const DayStartHour: int := 5

  /** `calculateDate`: the calendar day on which a boundary hour falls. A
      start hour before 05 belongs to the late night of the selected
      schedule-day and so to the next calendar day. An end hour up to 05
      inclusive is put on the next calendar day too, so an end at 05:00
      closes the schedule-day and one at 05:01..05:59 lies past its close. */
  function CalculateDate(date: int, hour: int, isStartDate: bool): (r: int)
    ensures r == date || r == date + 1
    ensures isStartDate ==> (r == date + 1 <==> hour < DayStartHour)
    ensures !isStartDate ==> (r == date + 1 <==> hour <= DayStartHour)
  {
    if hour <= 5 && !isStartDate then date + 1
    else if isStartDate && hour < 5 then date + 1
    else date
  }

  /** The instant `day` at `hour`:`minute`, as an absolute minute number. A
      time of day inside 00:00..23:59 lies within its calendar day. */
  function Instant(day: int, hour: int, minute: int): (r: int)
    ensures 0 <= hour * 60 + minute < 1440 ==> day * 1440 <= r < (day + 1) * 1440
  {
    day * 1440 + hour * 60 + minute
  }

  /** The four text inputs of the form. */
  datatype TimeField = StartHour | StartMinute | EndHour | EndMinute

  /** The modal's `form` state. An absent `todoIdx` is `undefined`. */
  datatype TimelineForm = TimelineForm(
    todoIdx: Option<int>,
    todoColor: string,
    todoTitle: string,
    date: int,
    startHour: string,
    startMinute: string,
    endHour: string,
    endMinute: string)

  /** Why a submission was turned down. Each is shown to the user either as
      a toast (`NoTodoSelected`, `HourOutOfRange`, `MinuteOutOfRange`,
      `TooShort`) or, for `EmptyTimeField`, by focusing the start-hour input
      (the source focuses that input for every empty field). */
  datatype Rejection =
    | NoTodoSelected
    | EmptyTimeField(field: TimeField)
    | HourOutOfRange(field: TimeField)
    | MinuteOutOfRange
    | TooShort

  /** The payload handed to the create-timeline mutation. */
  datatype CreateTimelineRequest = CreateTimelineRequest(
    userUid: string,
    todoIdx: int,
    startDateTime: int,
    endDateTime: int,
    executionTime: int,
    action: string)

  datatype Outcome = Rejected(reason: Rejection) | Submitted(request: CreateTimelineRequest)

  /** JavaScript truthiness of a todo index: `undefined` and `0` are falsy. */
  predicate Truthy(idx: Option<int>) {
    idx.Some? && idx.value != 0
  }

  /** Number comparisons as JavaScript evaluates them: any comparison with
      `NaN` (here `None`) is false. */
  predicate NumGt(x: Option<int>, k: int) {
    x.Some? && x.value > k
  }

  predicate NumLt(x: Option<int>, k: int) {
    x.Some? && x.value < k
  }

  predicate IsNaN(x: Option<int>) {
    x.None?
  }

  function GetTimeField(f: TimelineForm, name: TimeField): string {
    match name
    case StartHour => f.startHour
    case StartMinute => f.startMinute
    case EndHour => f.endHour
    case EndMinute => f.endMinute
  }

  /** `setForm({...form, [name]: value})`: replaces the named time field only. */
  function SetTimeField(f: TimelineForm, name: TimeField, value: string): (r: TimelineForm)
    ensures GetTimeField(r, name) == value
    ensures forall other :: other != name ==> GetTimeField(r, other) == GetTimeField(f, other)
    ensures r.todoIdx == f.todoIdx && r.todoColor == f.todoColor
    ensures r.todoTitle == f.todoTitle && r.date == f.date
  {
    match name
    case StartHour => f.(startHour := value)
    case StartMinute => f.(startMinute := value)
    case EndHour => f.(endHour := value)
    case EndMinute => f.(endMinute := value)
  }

  const DefaultTodoColor: string := "#696969"
  const NoTodoTitle: string := "작성된 투두가 없어요"

  /** The hour of the day one hour after `hour`: setting the hour of a date
      to `hour` and adding an hour carries past midnight. */
  function NextHourOfDay(hour: int): (r: int)
    ensures 0 <= r < 24 && r == (hour + 1) % 24
    ensures 0 <= hour < 23 ==> r == hour + 1
    ensures hour == 23 ==> r == 0
  {
    (hour + 1) % 24
  }

  /** The form the modal opens with: no todo yet, the clicked hour zero-padded
      as the start, the hour after it (wrapping past midnight) as the end, and
      both minutes "00". */
  function InitialForm(selectedDate: int, clickedTime: int): (f: TimelineForm)
    ensures f.todoIdx == None && f.date == selectedDate
    ensures f.todoColor == DefaultTodoColor && f.todoTitle == NoTodoTitle
    ensures f.startMinute == "00" && f.endMinute == "00"
  {
    TimelineForm(
      None, DefaultTodoColor, NoTodoTitle, selectedDate,
      PadStart2(NumberToString(clickedTime)), "00",
      PadStart2(NumberToString(NextHourOfDay(clickedTime))), "00")
  }

  /** The initial texts read back as the clicked hour, the next hour of the
      day, and zero minutes. */
  lemma InitialFormParses(selectedDate: int, clickedTime: int)
    ensures var f := InitialForm(selectedDate, clickedTime);
      ParseInt(f.startHour) == Some(clickedTime) &&
      ParseInt(f.endHour) == Some(NextHourOfDay(clickedTime)) &&
      ParseInt(f.startMinute) == Some(0) && ParseInt(f.endMinute) == Some(0)
  {
    ParsePaddedNumberString(clickedTime);
    ParsePaddedNumberString(NextHourOfDay(clickedTime));
    ParseText(0, "00");
  }

  /** What the hour guard lets through: a parsed number in 0..23. */
  predicate HourAccepted(x: Option<int>) {
    !(NumGt(x, 23) || NumLt(x, 0) || IsNaN(x))
  }

  /** What the minute guard lets through: a parsed number in 0..61. */
  predicate MinuteAccepted(x: Option<int>) {
    !(NumGt(x, 61) || NumLt(x, 0) || IsNaN(x))
  }

  /** The checks `handleSubmit` makes before it builds any instant, in the
      source's order, first failure wins; `None` when all of them pass. They
      pass exactly when a todo is chosen and the four texts read as in-range
      numbers. */
  function FirstFailedCheck(form: TimelineForm): (r: Option<Rejection>)
    ensures r == None <==> Truthy(form.todoIdx) && WellFormedTimes(form)
    ensures r != Some(TooShort)
  {
    if !Truthy(form.todoIdx) then Some(NoTodoSelected)
    else if form.startHour == "" then Some(EmptyTimeField(StartHour))
    else if !HourAccepted(ParseInt(form.startHour)) then Some(HourOutOfRange(StartHour))
    else if !HourAccepted(ParseInt(form.endHour)) then Some(HourOutOfRange(EndHour))
    else if !MinuteAccepted(ParseInt(form.startMinute)) || !MinuteAccepted(ParseInt(form.endMinute))
    then Some(MinuteOutOfRange)
    else if form.startMinute == "" then Some(EmptyTimeField(StartMinute))
    else if form.endHour == "" then Some(EmptyTimeField(EndHour))
    else if form.endMinute == "" then Some(EmptyTimeField(EndMinute))
    else None
  }

  /** `handleSubmit`'s validation and assembly: the checks, then the two
      instants and the duration in seconds, refused below one minute. */
  function Submit(form: TimelineForm, selectedDate: int, userUid: string): (r: Outcome)
    ensures !Truthy(form.todoIdx) ==> r == Rejected(NoTodoSelected)
    ensures r.Submitted? ==>
      var q := r.request;
      form.todoIdx == Some(q.todoIdx) && q.todoIdx != 0 && q.userUid == userUid &&
      q.action == "stop" &&
      q.executionTime == 60 * (q.endDateTime - q.startDateTime) &&
      q.executionTime >= 60 && q.endDateTime > q.startDateTime
  {
    var failed := FirstFailedCheck(form);
    if failed.Some? then Rejected(failed.value)
    else
      var startDateTime := StartInstant(form, selectedDate);
      var endDateTime := EndInstant(form, selectedDate);
      var executionTime := 60 * (endDateTime - startDateTime);
      if executionTime < 60 then Rejected(TooShort)
      else Submitted(CreateTimelineRequest(userUid, form.todoIdx.value, startDateTime,
                                           endDateTime, executionTime, "stop"))
  }

  // ----- Properties of the guard chain -----

  /** The hour guard accepts exactly the integers 0..23; `NaN` is refused. */
  lemma HourAcceptedRange(x: Option<int>)
    ensures HourAccepted(x) <==> x.Some? && 0 <= x.value <= 23
  {
  }

  /** The minute guard accepts exactly 0..61: 61 passes although the message
      the user sees says 0 ~ 60, and 60, which that message allows, is not a
      minute of the clock. */
  lemma MinuteAcceptedRange(x: Option<int>)
    ensures MinuteAccepted(x) <==> x.Some? && 0 <= x.value <= 61
  {
  }

  lemma MinuteSixtyAndSixtyOneAccepted()
    ensures MinuteAccepted(ParseInt("60")) && MinuteAccepted(ParseInt("61"))
    ensures !MinuteAccepted(ParseInt("62"))
  {
    assert ParseInt("60") == Some(60) by { ParseText(60, "60"); }
    assert ParseInt("61") == Some(61) by { ParseText(61, "61"); }
    assert ParseInt("62") == Some(62) by { ParseText(62, "62"); }
  }

  /** The four time texts read, with `parseInt(_, 10)`, as hours in 0..23
      and minutes in 0..61. */
  predicate WellFormedTimes(form: TimelineForm) {
    HourAccepted(ParseInt(form.startHour)) && HourAccepted(ParseInt(form.endHour)) &&
    MinuteAccepted(ParseInt(form.startMinute)) && MinuteAccepted(ParseInt(form.endMinute))
  }

  /** The start instant of such a form: its start hour and minute on the
      day that `calculateDate` gives for a start. */
  function StartInstant(form: TimelineForm, selectedDate: int): int
    requires WellFormedTimes(form)
  {
    var h := ParseInt(form.startHour).value;
    Instant(CalculateDate(selectedDate, h, true), h, ParseInt(form.startMinute).value)
  }

  /** Its end instant, on the day `calculateDate` gives for an end. */
  function EndInstant(form: TimelineForm, selectedDate: int): int
    requires WellFormedTimes(form)
  {
    var h := ParseInt(form.endHour).value;
    Instant(CalculateDate(selectedDate, h, false), h, ParseInt(form.endMinute).value)
  }

  /** A submission goes through exactly when a todo is chosen, both hours
      parse to 0..23, both minutes to 0..61 and the end is at least a minute
      after the start; the request then carries those two instants. */
  lemma SubmittedIff(form: TimelineForm, selectedDate: int, userUid: string)
    ensures Submit(form, selectedDate, userUid).Submitted? <==>
      Truthy(form.todoIdx) && WellFormedTimes(form) &&
      EndInstant(form, selectedDate) - StartInstant(form, selectedDate) >= 1
    ensures Submit(form, selectedDate, userUid).Submitted? ==>
      var s := StartInstant(form, selectedDate);
      var e := EndInstant(form, selectedDate);
      Submit(form, selectedDate, userUid).request ==
        CreateTimelineRequest(userUid, form.todoIdx.value, s, e, 60 * (e - s), "stop")
  {
    if Truthy(form.todoIdx) && WellFormedTimes(form) {
      assert form.startHour != "" && form.startMinute != "";
      assert form.endHour != "" && form.endMinute != "";
    }
  }

  /** The emptiness checks after the minute guard can never fire: an empty
      field has already failed to parse. Only an empty start hour is
      reported as an empty field. */
  lemma OnlyStartHourReportedEmpty(form: TimelineForm, selectedDate: int, userUid: string)
    ensures Submit(form, selectedDate, userUid) != Rejected(EmptyTimeField(StartMinute))
    ensures Submit(form, selectedDate, userUid) != Rejected(EmptyTimeField(EndHour))
    ensures Submit(form, selectedDate, userUid) != Rejected(EmptyTimeField(EndMinute))
    ensures Submit(form, selectedDate, userUid) == Rejected(EmptyTimeField(StartHour)) <==>
      Truthy(form.todoIdx) && form.startHour == ""
  {
  }

  /** Each hour is checked before anything later: a chosen todo and a
      non-empty, unacceptable start hour is reported as such, whatever the
      other fields hold; likewise the end hour once the start hour passed. */
  lemma HourCheckedFirst(form: TimelineForm, selectedDate: int, userUid: string)
    requires Truthy(form.todoIdx)
    ensures form.startHour != "" && !HourAccepted(ParseInt(form.startHour)) ==>
      Submit(form, selectedDate, userUid) == Rejected(HourOutOfRange(StartHour))
    ensures (form.startHour != "" && HourAccepted(ParseInt(form.startHour)) &&
             !HourAccepted(ParseInt(form.endHour))) ==>
      Submit(form, selectedDate, userUid) == Rejected(HourOutOfRange(EndHour))
  {
  }

  /** The minute guard comes after both hour guards and before the duration. */
  lemma MinuteCheckedBeforeDuration(form: TimelineForm, selectedDate: int, userUid: string)
    requires Truthy(form.todoIdx) && form.startHour != ""
    requires HourAccepted(ParseInt(form.startHour)) && HourAccepted(ParseInt(form.endHour))
    ensures !MinuteAccepted(ParseInt(form.startMinute)) || !MinuteAccepted(ParseInt(form.endMinute))
      <==> Submit(form, selectedDate, userUid) == Rejected(MinuteOutOfRange)
  {
  }

  /** On success the duration in seconds is the literal second difference of
      the two instants, at least one minute, and the end is after the start. */
  lemma SubmittedDuration(form: TimelineForm, selectedDate: int, userUid: string)
    requires Submit(form, selectedDate, userUid).Submitted?
    ensures WellFormedTimes(form)
    ensures var q := Submit(form, selectedDate, userUid).request;
      q.startDateTime == StartInstant(form, selectedDate) &&
      q.endDateTime == EndInstant(form, selectedDate) &&
      q.executionTime == 60 * (q.endDateTime - q.startDateTime) >= 60
  {
    SubmittedIff(form, selectedDate, userUid);
  }

  // ----- The minutes as written -----
  // The guards read the minute texts with `parseInt(_, 10)`, but the two
  // instants re-read them with `parseInt` and no radix. `Submit` uses the
  // numbers the guards checked. The members below follow the code as written.

  /** A request as the code as written may send it: an instant the date
      library could not form (`Invalid Date`) is `None`, and so is a
      difference taken from one (`NaN`). */
  datatype SentRequest = SentRequest(
    userUid: string,
    todoIdx: int,
    startDateTime: Option<int>,
    endDateTime: Option<int>,
    executionTime: Option<int>,
    action: string)

  datatype SentOutcome = Refused(reason: Rejection) | Sent(request: SentRequest)

  /** The time range of an ECMAScript `Date`: 8.64e15 milliseconds either
      side of the epoch, that is 1.44e11 minutes, with day 0 the epoch's day.
      A time outside it is an `Invalid Date`. */
  const MaxTimeMinutes: int := 144_000_000_000

  predicate InTimeRange(t: int) {
    -MaxTimeMinutes <= t <= MaxTimeMinutes
  }

  /** The selected date lies at least three days inside the time range, so
      every instant that in-range hour and minute fields give is a date. */
  predicate RoomForTimes(date: int) {
    InTimeRange(Instant(date, 0, 0)) && InTimeRange(Instant(date + 3, 0, 0))
  }

  /** `dayjs(day).hour(hour).minute(m)`: no date when `m` is `NaN` or when
      the time it names is outside the time range. */
  function InstantOrInvalid(day: int, hour: int, minute: Option<int>): (r: Option<int>)
    ensures r.Some? <==> minute.Some? && InTimeRange(Instant(day, hour, minute.value))
    ensures r.Some? ==> r.value - Instant(day, hour, 0) == minute.value
  {
    if minute.Some? && InTimeRange(Instant(day, hour, minute.value))
    then Some(Instant(day, hour, minute.value))
    else None
  }

  /** `end.diff(start, 'second')`: `NaN` unless both dates are valid. */
  function DiffSeconds(e: Option<int>, s: Option<int>): (r: Option<int>)
    ensures r.Some? <==> e.Some? && s.Some?
    ensures r.Some? ==> r.value == 60 * (e.value - s.value)
  {
    if e.Some? && s.Some? then Some(60 * (e.value - s.value)) else None
  }

  /** `handleSubmit` as written: the same checks, then the instants from the
      minutes read without a radix; `NaN < 60` is false, so a `NaN` duration
      is sent. */
  function SubmitAsWritten(form: TimelineForm, selectedDate: int, userUid: string): (r: SentOutcome)
    ensures FirstFailedCheck(form).Some? ==> r == Refused(FirstFailedCheck(form).value)
    ensures r.Sent? ==> r.request.executionTime.None? || r.request.executionTime.value >= 60
  {
    var failed := FirstFailedCheck(form);
    if failed.Some? then Refused(failed.value)
    else
      var startHour := ParseInt(form.startHour).value;
      var endHour := ParseInt(form.endHour).value;
      var startDateTime := InstantOrInvalid(CalculateDate(selectedDate, startHour, true),
                                            startHour, ParseIntNoRadix(form.startMinute));
      var endDateTime := InstantOrInvalid(CalculateDate(selectedDate, endHour, false),
                                          endHour, ParseIntNoRadix(form.endMinute));
      var executionTime := DiffSeconds(endDateTime, startDateTime);
      if NumLt(executionTime, 60) then Refused(TooShort)
      else Sent(SentRequest(userUid, form.todoIdx.value, startDateTime, endDateTime,
                            executionTime, "stop"))
  }

  /** A request of `Submit` in the shape the code as written sends. */
  function AsSent(o: Outcome): SentOutcome {
    match o
    case Rejected(why) => Refused(why)
    case Submitted(q) =>
      Sent(SentRequest(q.userUid, q.todoIdx, Some(q.startDateTime), Some(q.endDateTime),
                       Some(q.executionTime), q.action))
  }

  /** Where neither minute text carries a hex prefix after its whitespace
      and sign, and the selected date is not at the edge of the time range,
      the code as written does what `Submit` says. */
  lemma AsWrittenAgreesOnDecimalMinutes(form: TimelineForm, selectedDate: int, userUid: string)
    requires RoomForTimes(selectedDate)
    requires !HasHexPrefix(UnsignedPart(form.startMinute))
    requires !HasHexPrefix(UnsignedPart(form.endMinute))
    ensures SubmitAsWritten(form, selectedDate, userUid) == AsSent(Submit(form, selectedDate, userUid))
  {
    NoRadixIsDecimalWithoutHexPrefix(form.startMinute);
    NoRadixIsDecimalWithoutHexPrefix(form.endMinute);
    if FirstFailedCheck(form) == None {
      var s := StartInstant(form, selectedDate);
      var e := EndInstant(form, selectedDate);
      assert InTimeRange(s) && InTimeRange(e) by {
        InstantsOfCheckedFields(form, selectedDate);
      }
    }
  }

  /** The instants of fields that pass the checks lie between the selected
      day and three days after it. */
  lemma InstantsOfCheckedFields(form: TimelineForm, selectedDate: int)
    requires WellFormedTimes(form)
    ensures Instant(selectedDate, 0, 0) <= StartInstant(form, selectedDate) < Instant(selectedDate + 3, 0, 0)
    ensures Instant(selectedDate, 0, 0) <= EndInstant(form, selectedDate) < Instant(selectedDate + 3, 0, 0)
  {
    HourAcceptedRange(ParseInt(form.startHour));
    HourAcceptedRange(ParseInt(form.endHour));
    MinuteAcceptedRange(ParseInt(form.startMinute));
    MinuteAcceptedRange(ParseInt(form.endMinute));
  }

  /** Once the checks pass, a minute text that reads as `NaN` without a
      radix is sent anyway, with no valid instant and a `NaN` duration. */
  lemma NaNMinuteIsSent(form: TimelineForm, selectedDate: int, userUid: string)
    requires FirstFailedCheck(form) == None
    requires ParseIntNoRadix(form.startMinute) == None || ParseIntNoRadix(form.endMinute) == None
    ensures var r := SubmitAsWritten(form, selectedDate, userUid);
      r.Sent? && r.request.executionTime == None
  {
  }

  /** Once the checks pass, a start minute read without a radix as a number
      whose time lies outside the time range is sent too: the start is an
      `Invalid Date` and the duration `NaN`. */
  lemma OutOfRangeStartMinuteIsSent(form: TimelineForm, selectedDate: int, userUid: string, m: int)
    requires FirstFailedCheck(form) == None
    requires ParseIntNoRadix(form.startMinute) == Some(m)
    requires var h := ParseInt(form.startHour).value;
      !InTimeRange(Instant(CalculateDate(selectedDate, h, true), h, m))
    ensures var r := SubmitAsWritten(form, selectedDate, userUid);
      r.Sent? && r.request.startDateTime == None && r.request.executionTime == None
  {
  }

  /** 10:"0xFFFFFFFFFF" to 10:"00": the checks read the start minute as 0,
      so `Submit` refuses a record of no length; without a radix it reads as
      1099511627775 minutes, past the end of the time range, and the code as
      written sends a request with an invalid start and a `NaN` duration. */
  lemma CaseHexMinuteOutOfRange(form: TimelineForm, date: int, userUid: string)
    requires Truthy(form.todoIdx) && RoomForTimes(date)
    requires form.startHour == "10" && form.startMinute == "0xFFFFFFFFFF"
    requires form.endHour == "10" && form.endMinute == "00"
    ensures Submit(form, date, userUid) == Rejected(TooShort)
    ensures SubmitAsWritten(form, date, userUid) ==
      Sent(SentRequest(userUid, form.todoIdx.value, None, Some(Instant(date, 10, 0)), None, "stop"))
  {
    ParseText(10, "10");
    ParseText(0, "00");
    HexTenFs();
    assert ParseIntNoRadix("00") == Some(0) by {
      assert UnsignedPart("00") == "00";
      NoRadixIsDecimalWithoutHexPrefix("00");
    }
    CaseZeroLength(form, date, userUid);
    OutOfRangeStartMinuteSent(form, date, userUid, 10, 10, 0xFF_FFFF_FFFF);
  }

  /** 10:"0x" to 10:"00": the checks read "0x" as minute 0, so `Submit`
      refuses a record of no length; the code as written reads "0x" as `NaN`
      and sends a request with an invalid start and a `NaN` duration. */
  lemma CaseHexMinuteWithoutDigits(form: TimelineForm, date: int, userUid: string)
    requires Truthy(form.todoIdx) && RoomForTimes(date)
    requires form.startHour == "10" && form.startMinute == "0x"
    requires form.endHour == "10" && form.endMinute == "00"
    ensures Submit(form, date, userUid) == Rejected(TooShort)
    ensures SubmitAsWritten(form, date, userUid) ==
      Sent(SentRequest(userUid, form.todoIdx.value, None, Some(Instant(date, 10, 0)), None, "stop"))
  {
    ParseText(10, "10");
    ParseText(0, "00");
    HexZeroX();
    assert ParseIntNoRadix("00") == Some(0) by {
      assert UnsignedPart("00") == "00";
      NoRadixIsDecimalWithoutHexPrefix("00");
    }
    CaseZeroLength(form, date, userUid);
    NaNStartMinuteSent(form, date, userUid, 10, 10);
  }

  /** The as-written request once a todo is chosen, the hours read as
      `sh` and `eh` and the checks read both minutes as 0, when the start
      minute reads as `NaN` without a radix and the end minute as 0. */
  lemma NaNStartMinuteSent(form: TimelineForm, date: int, userUid: string, sh: int, eh: int)
    requires Truthy(form.todoIdx) && 0 <= sh <= 23 && 0 <= eh <= 23 && RoomForTimes(date)
    requires ParseInt(form.startHour) == Some(sh) && ParseInt(form.endHour) == Some(eh)
    requires ParseInt(form.startMinute) == Some(0) && ParseInt(form.endMinute) == Some(0)
    requires ParseIntNoRadix(form.startMinute) == None && ParseIntNoRadix(form.endMinute) == Some(0)
    ensures SubmitAsWritten(form, date, userUid) ==
      Sent(SentRequest(userUid, form.todoIdx.value, None,
                       Some(Instant(CalculateDate(date, eh, false), eh, 0)), None, "stop"))
  {
    assert WellFormedTimes(form);
    assert FirstFailedCheck(form) == None;
  }

  /** The same with a start minute that reads, without a radix, as a number
      `m` whose time lies outside the time range. */
  lemma OutOfRangeStartMinuteSent(form: TimelineForm, date: int, userUid: string,
                                  sh: int, eh: int, m: int)
    requires Truthy(form.todoIdx) && 0 <= sh <= 23 && 0 <= eh <= 23 && RoomForTimes(date)
    requires ParseInt(form.startHour) == Some(sh) && ParseInt(form.endHour) == Some(eh)
    requires ParseInt(form.startMinute) == Some(0) && ParseInt(form.endMinute) == Some(0)
    requires ParseIntNoRadix(form.startMinute) == Some(m) && ParseIntNoRadix(form.endMinute) == Some(0)
    requires !InTimeRange(Instant(CalculateDate(date, sh, true), sh, m))
    ensures SubmitAsWritten(form, date, userUid) ==
      Sent(SentRequest(userUid, form.todoIdx.value, None,
                       Some(Instant(CalculateDate(date, eh, false), eh, 0)), None, "stop"))
  {
    assert WellFormedTimes(form);
    assert FirstFailedCheck(form) == None;
  }

  // ----- The schedule-day -----

  /** Any start time HH:MM with a minute below 60 falls inside the selected
      schedule-day, which runs from 05:00 of the selected date up to, but not
      including, 05:00 of the next. */
  lemma StartInScheduleDay(date: int, hour: int, minute: int)
    requires 0 <= hour <= 23 && 0 <= minute <= 59
    ensures var s := Instant(CalculateDate(date, hour, true), hour, minute);
      Instant(date, DayStartHour, 0) <= s < Instant(date + 1, DayStartHour, 0)
  {
  }

  /** An end hour other than 05, or 05:00 exactly, falls after the start of
      the schedule-day and no later than its end: 05:00 as an end time means
      the close of the schedule-day. */
  lemma EndInScheduleDay(date: int, hour: int, minute: int)
    requires 0 <= hour <= 23 && 0 <= minute <= 59
    requires hour != DayStartHour || minute == 0
    ensures var e := Instant(CalculateDate(date, hour, false), hour, minute);
      Instant(date, DayStartHour, 0) < e <= Instant(date + 1, DayStartHour, 0)
  {
  }

  /** A form whose texts read as a whole hour of the day and the next one
      records exactly one hour: for 04 the start and the end both move to
      the next day, for 23 only the end does. */
  lemma OneHourRecorded(form: TimelineForm, selectedDate: int, userUid: string, hour: int)
    requires Truthy(form.todoIdx) && 0 <= hour <= 23
    requires ParseInt(form.startHour) == Some(hour)
    requires ParseInt(form.endHour) == Some(NextHourOfDay(hour))
    requires ParseInt(form.startMinute) == Some(0) && ParseInt(form.endMinute) == Some(0)
    ensures var r := Submit(form, selectedDate, userUid);
      r.Submitted? && r.request.executionTime == 3600
  {
    var startDay := CalculateDate(selectedDate, hour, true);
    var endDay := CalculateDate(selectedDate, NextHourOfDay(hour), false);
    assert Instant(endDay, NextHourOfDay(hour), 0) - Instant(startDay, hour, 0) == 60;
    SubmittedIff(form, selectedDate, userUid);
  }

  /** So the form as opened for an hour of the day, once a todo is chosen and
      nothing is edited, records exactly one hour. */
  lemma InitialFormRecordsOneHour(selectedDate: int, clickedTime: int, idx: int, userUid: string)
    requires 0 <= clickedTime <= 23 && idx != 0
    ensures var f := InitialForm(selectedDate, clickedTime).(todoIdx := Some(idx));
      var r := Submit(f, selectedDate, userUid);
      r.Submitted? && r.request.executionTime == 3600
  {
    InitialFormParses(selectedDate, clickedTime);
    var f := InitialForm(selectedDate, clickedTime).(todoIdx := Some(idx));
    OneHourRecorded(f, selectedDate, userUid, clickedTime);
  }

  /** Once the four texts are known to read as in-range numbers, the outcome
      depends only on those numbers. */
  lemma SubmitOfParsed(form: TimelineForm, date: int, userUid: string,
                       sh: int, sm: int, eh: int, em: int)
    requires Truthy(form.todoIdx)
    requires ParseInt(form.startHour) == Some(sh) && ParseInt(form.startMinute) == Some(sm)
    requires ParseInt(form.endHour) == Some(eh) && ParseInt(form.endMinute) == Some(em)
    requires 0 <= sh <= 23 && 0 <= eh <= 23 && 0 <= sm <= 61 && 0 <= em <= 61
    ensures var s := Instant(CalculateDate(date, sh, true), sh, sm);
      var e := Instant(CalculateDate(date, eh, false), eh, em);
      Submit(form, date, userUid) ==
        if e - s >= 1 then
          Submitted(CreateTimelineRequest(userUid, form.todoIdx.value, s, e, 60 * (e - s), "stop"))
        else Rejected(TooShort)
  {
    assert form.startHour != "" && form.startMinute != "";
    assert form.endHour != "" && form.endMinute != "";
  }

  // ----- Worked cases -----
  // Each case names the numbers the four fields read as; `ParseText` shows
  // that the two-digit texts "23", "30", ... read so.

  /** 23:30 to 00:15 crosses midnight: only the end moves to the next day,
      45 minutes, 2700 seconds. */
  lemma CaseAcrossMidnight(form: TimelineForm, date: int, userUid: string)
    requires Truthy(form.todoIdx)
    requires ParseInt(form.startHour) == Some(23) && ParseInt(form.startMinute) == Some(30)
    requires ParseInt(form.endHour) == Some(0) && ParseInt(form.endMinute) == Some(15)
    ensures Submit(form, date, userUid) == Submitted(CreateTimelineRequest(
      userUid, form.todoIdx.value, Instant(date, 23, 30), Instant(date + 1, 0, 15), 2700, "stop"))
  {
    SubmitOfParsed(form, date, userUid, 23, 30, 0, 15);
  }

  /** 04:00 to 04:30: both boundaries move to the next day, 1800 seconds. */
  lemma CaseBothRollOver(form: TimelineForm, date: int, userUid: string)
    requires Truthy(form.todoIdx)
    requires ParseInt(form.startHour) == Some(4) && ParseInt(form.startMinute) == Some(0)
    requires ParseInt(form.endHour) == Some(4) && ParseInt(form.endMinute) == Some(30)
    ensures Submit(form, date, userUid) == Submitted(CreateTimelineRequest(
      userUid, form.todoIdx.value, Instant(date + 1, 4, 0), Instant(date + 1, 4, 30), 1800, "stop"))
  {
    SubmitOfParsed(form, date, userUid, 4, 0, 4, 30);
  }

  /** 05:00 to 05:30: only the end moves to the next day, so the record
      spans a day and half an hour, 88200 seconds. */
  lemma CaseOnlyEndRollsOver(form: TimelineForm, date: int, userUid: string)
    requires Truthy(form.todoIdx)
    requires ParseInt(form.startHour) == Some(5) && ParseInt(form.startMinute) == Some(0)
    requires ParseInt(form.endHour) == Some(5) && ParseInt(form.endMinute) == Some(30)
    ensures Submit(form, date, userUid) == Submitted(CreateTimelineRequest(
      userUid, form.todoIdx.value, Instant(date, 5, 0), Instant(date + 1, 5, 30), 88200, "stop"))
  {
    SubmitOfParsed(form, date, userUid, 5, 0, 5, 30);
  }

  /** 10:00 to 10:00 lasts nothing and is refused as too short. */
  lemma CaseZeroLength(form: TimelineForm, date: int, userUid: string)
    requires Truthy(form.todoIdx)
    requires ParseInt(form.startHour) == Some(10) && ParseInt(form.startMinute) == Some(0)
    requires ParseInt(form.endHour) == Some(10) && ParseInt(form.endMinute) == Some(0)
    ensures Submit(form, date, userUid) == Rejected(TooShort)
  {
    SubmitOfParsed(form, date, userUid, 10, 0, 10, 0);
  }

  /** The same cases as typed into the four fields. */
  lemma CaseAcrossMidnightAsTyped(form: TimelineForm, date: int, userUid: string)
    requires Truthy(form.todoIdx)
    requires form.startHour == "23" && form.startMinute == "30"
    requires form.endHour == "00" && form.endMinute == "15"
    ensures Submit(form, date, userUid) == Submitted(CreateTimelineRequest(
      userUid, form.todoIdx.value, Instant(date, 23, 30), Instant(date + 1, 0, 15), 2700, "stop"))
  {
    ParseText(23, "23");
    ParseText(30, "30");
    ParseText(0, "00");
    ParseText(15, "15");
    CaseAcrossMidnight(form, date, userUid);
  }

  lemma CaseBothRollOverAsTyped(form: TimelineForm, date: int, userUid: string)
    requires Truthy(form.todoIdx)
    requires form.startHour == "04" && form.startMinute == "00"
    requires form.endHour == "04" && form.endMinute == "30"
    ensures Submit(form, date, userUid) == Submitted(CreateTimelineRequest(
      userUid, form.todoIdx.value, Instant(date + 1, 4, 0), Instant(date + 1, 4, 30), 1800, "stop"))
  {
    ParseText(4, "04");
    ParseText(0, "00");
    ParseText(30, "30");
    CaseBothRollOver(form, date, userUid);
  }

  lemma CaseOnlyEndRollsOverAsTyped(form: TimelineForm, date: int, userUid: string)
    requires Truthy(form.todoIdx)
    requires form.startHour == "05" && form.startMinute == "00"
    requires form.endHour == "05" && form.endMinute == "30"
    ensures Submit(form, date, userUid) == Submitted(CreateTimelineRequest(
      userUid, form.todoIdx.value, Instant(date, 5, 0), Instant(date + 1, 5, 30), 88200, "stop"))
  {
    ParseText(5, "05");
    ParseText(0, "00");
    ParseText(30, "30");
    CaseOnlyEndRollsOver(form, date, userUid);
  }

  lemma CaseZeroLengthAsTyped(form: TimelineForm, date: int, userUid: string)
    requires Truthy(form.todoIdx)
    requires form.startHour == "10" && form.startMinute == "00"
    requires form.endHour == "10" && form.endMinute == "00"
    ensures Submit(form, date, userUid) == Rejected(TooShort)
  {
    ParseText(10, "10");
    ParseText(0, "00");
    CaseZeroLength(form, date, userUid);
  }

  /** A start hour of 25 is refused by the hour guard, before the other
      fields are looked at. */
  lemma CaseHourTwentyFive(form: TimelineForm, date: int, userUid: string)
    requires Truthy(form.todoIdx) && form.startHour == "25"
    ensures Submit(form, date, userUid) == Rejected(HourOutOfRange(StartHour))
  {
    ParseText(25, "25");
  }

  /** The modal component: its form state, its visibility, and a log of the
      requests it sent and of the notices (toasts and focus moves) it gave. */
  class CreateTimelineModal {
    const selectedDate: int
    const userUid: string
    const clickedTime: int
    var form: TimelineForm
    var visible: bool
    var showTodoListModal: bool
    var requests: seq<CreateTimelineRequest>
    var notices: seq<Rejection>

    constructor (selectedDate: int, userUid: string, clickedTime: int)
      ensures this.selectedDate == selectedDate && this.userUid == userUid
      ensures this.clickedTime == clickedTime
      ensures form == InitialForm(selectedDate, clickedTime)
      ensures visible && !showTodoListModal && requests == [] && notices == []
    {
      this.selectedDate := selectedDate;
      this.userUid := userUid;
      this.clickedTime := clickedTime;
      form := InitialForm(selectedDate, clickedTime);
      visible := true;
      showTodoListModal := false;
      requests := [];
      notices := [];
    }

    /** The effect that runs when the todo list arrives: the first todo of
        the first category is preselected, if there is one. */
    method PreselectFirstTodo(todos: Option<seq<TodoSection>>)
      modifies this`form
      ensures if todos.Some? && |todos.value| > 0 && |todos.value[0].data| > 0 then
          var t := todos.value[0].data[0];
          form == old(form).(todoIdx := Some(t.idx), todoColor := todos.value[0].color,
                             todoTitle := t.title)
        else form == old(form)
    {
      if todos.Some? && |todos.value| > 0 && |todos.value[0].data| > 0 {
        var t := todos.value[0].data[0];
        form := form.(todoIdx := Some(t.idx), todoColor := todos.value[0].color, todoTitle := t.title);
      }
    }

    /** `handleChangeText`: only the named field changes. */
    method HandleChangeText(name: TimeField, value: string)
      modifies this`form
      ensures form == SetTimeField(old(form), name, value)
    {
      form := SetTimeField(form, name, value);
    }

    /** `handleTodoPress`: opens the todo list. */
    method HandleTodoPress()
      modifies this`showTodoListModal
      ensures showTodoListModal
    {
      showTodoListModal := true;
    }

    /** `todoHandlePress`: takes the chosen todo's index, colour and title,
        leaves the time fields alone, and closes the todo list. */
    method TodoHandlePress(todo: Todo)
      modifies this`form, this`showTodoListModal
      ensures form == old(form).(todoIdx := Some(todo.idx), todoColor := todo.color, todoTitle := todo.title)
      ensures !showTodoListModal
    {
      form := form.(todoIdx := Some(todo.idx), todoColor := todo.color, todoTitle := todo.title);
      showTodoListModal := false;
    }

    /** `handleSubmit`: on success exactly one request is sent and the modal
        closes; on any rejection nothing is sent, the modal stays, and the
        reason is shown. */
    method HandleSubmit()
      modifies this`requests, this`visible, this`notices
      ensures match Submit(form, selectedDate, userUid)
        case Submitted(q) =>
          requests == old(requests) + [q] && !visible && notices == old(notices)
        case Rejected(why) =>
          requests == old(requests) && visible == old(visible) && notices == old(notices) + [why]
    {
      if !Truthy(form.todoIdx) {
        notices := notices + [NoTodoSelected];
        return;
      }
      if form.startHour == "" {
        notices := notices + [EmptyTimeField(StartHour)];
        return;
      }
      var startHour := ParseInt(form.startHour);
      if NumGt(startHour, 23) || NumLt(startHour, 0) || IsNaN(startHour) {
        notices := notices + [HourOutOfRange(StartHour)];
        return;
      }
      var endHour := ParseInt(form.endHour);
      if NumGt(endHour, 23) || NumLt(endHour, 0) || IsNaN(endHour) {
        notices := notices + [HourOutOfRange(EndHour)];
        return;
      }
      var startMinute := ParseInt(form.startMinute);
      var endMinute := ParseInt(form.endMinute);
      if NumGt(startMinute, 61) || NumLt(startMinute, 0) || IsNaN(startMinute) ||
         NumGt(endMinute, 61) || NumLt(endMinute, 0) || IsNaN(endMinute) {
        notices := notices + [MinuteOutOfRange];
        return;
      }
      // The source's three emptiness checks that come here cannot fire: an
      // empty text has already been refused, as NaN, by a guard above.
      if form.startMinute == "" { assert false; }
      if form.endHour == "" { assert false; }
      if form.endMinute == "" { assert false; }
      assert FirstFailedCheck(form) == None;
      var startDateTime := Instant(CalculateDate(selectedDate, startHour.value, true),
                                   startHour.value, ParseInt(form.startMinute).value);
      var endDateTime := Instant(CalculateDate(selectedDate, endHour.value, false),
                                 endHour.value, ParseInt(form.endMinute).value);
      assert startDateTime == StartInstant(form, selectedDate);
      assert endDateTime == EndInstant(form, selectedDate);
      var executionTime := 60 * (endDateTime - startDateTime);
      if executionTime < 60 {
        notices := notices + [TooShort];
        return;
      }
      var request := CreateTimelineRequest(userUid, form.todoIdx.value, startDateTime,
                                           endDateTime, executionTime, "stop");
      requests := requests + [request];
      visible := false;
    }
  }
}
