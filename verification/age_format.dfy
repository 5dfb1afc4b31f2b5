/**
 The age formatter (`getAgeString`): an age in seconds becomes a two-unit
 text such as "3 Minutes 12 Seconds". The formatter is split into `Describe`,
 which picks the units and their values, and `Render`, which writes them;
 `ParseAgeText` reads a rendered text back, and the lemmas below use it to
 show what a reader of the dashboard can learn from the age column.
 */
module AgeFormat {
  import opened Optional
  import opened Decimal
  import opened Rounding

  const SecondsPerMinute := 60
  const SecondsPerHour := 3600
  const SecondsPerDay := 86400
  /** From this age on the dashboard reports a site as having no recent data. */
  const NoDataAge := 10 * SecondsPerDay

  const NoRecentDataText := "No recent data"

  /** The units an age is shown in, with their values. */
  datatype AgeText =
    | Seconds(seconds: int)
    | MinutesSeconds(minutes: int, seconds: int)
    | HoursMinutes(hours: int, minutes: int)
    | NoRecentData
    | DaysHours(days: int, hours: int)

  /** Picks the units for `age`, trying the thresholds in the dashboard's order. */
  function Describe(age: int): (t: AgeText)
    ensures age < SecondsPerMinute ==> t == Seconds(age)
    ensures SecondsPerMinute <= age < SecondsPerHour ==>
      && t.MinutesSeconds?
      && t.minutes * SecondsPerMinute + t.seconds == age
      && 1 <= t.minutes <= 59
      && 0 <= t.seconds < SecondsPerMinute
    ensures SecondsPerHour <= age < SecondsPerDay ==>
      && t.HoursMinutes?
      && t.hours * SecondsPerHour <= age < (t.hours + 1) * SecondsPerHour
      && 1 <= t.hours <= 23
      && RoundsHalfEven(age - t.hours * SecondsPerHour, SecondsPerMinute, t.minutes)
      && 0 <= t.minutes <= 60
    ensures t == NoRecentData <==> age >= NoDataAge
    ensures SecondsPerDay <= age < NoDataAge ==>
      && t.DaysHours?
      && t.days * SecondsPerDay <= age < (t.days + 1) * SecondsPerDay
      && 1 <= t.days <= 9
      && RoundsHalfEven(age - t.days * SecondsPerDay, SecondsPerHour, t.hours)
      && 0 <= t.hours <= 24
  {
    if age < SecondsPerMinute then
      Seconds(age)
    else if age < SecondsPerHour then
      MinutesSeconds(age / SecondsPerMinute, age % SecondsPerMinute)
    else if age < SecondsPerDay then
      RoundHalfEvenBounds(age % SecondsPerHour, SecondsPerMinute, 60);
      HoursMinutes(age / SecondsPerHour, RoundHalfEven(age % SecondsPerHour, SecondsPerMinute))
    else if age >= NoDataAge then
      NoRecentData
    else
      RoundHalfEvenBounds(age % SecondsPerDay, SecondsPerHour, 24);
      DaysHours(age / SecondsPerDay, RoundHalfEven(age % SecondsPerDay, SecondsPerHour))
  }

  /** Writes the units as the dashboard does, numbers in Python's `str()` form: every text but "No recent data" starts with a number. */
  function Render(t: AgeText): (s: string)
    ensures s == NoRecentDataText <==> t == NoRecentData
    ensures t != NoRecentData ==> |s| > 0 && (s[0] == '-' || IsDigit(s[0]))
  {
    match t
    case Seconds(s) => LeadingNumber(s, " Seconds")
    case MinutesSeconds(m, s) => LeadingNumber(m, " Minutes " + IntStr(s) + " Seconds")
    case HoursMinutes(h, m) => LeadingNumber(h, " Hours " + IntStr(m) + " Minutes")
    case NoRecentData => NoRecentDataText
    case DaysHours(d, h) => LeadingNumber(d, " Days " + IntStr(h) + " Hours")
  }

  /** The number `n` in Python's `str()` form followed by `rest`; it never reads "No recent data". */
  function LeadingNumber(n: int, rest: string): (s: string)
    ensures |s| > 0 && (s[0] == '-' || IsDigit(s[0]))
    ensures s != NoRecentDataText
  {
    var s := IntStr(n) + rest;
    assert s[0] == IntStr(n)[0];
    s
  }

  /** `getAgeString(age)`: the units `Describe` picks, written out; "No recent data" exactly from ten days on. */
  function AgeString(age: int): (s: string)
    ensures s == NoRecentDataText <==> age >= NoDataAge
  {
    Render(Describe(age))
  }

  /** Reads `lead`, a number and then exactly `unit` from `s`. */
  function ParseUnit(s: string, lead: string, unit: string): Option<int>
  {
    if |s| >= |lead| && s[..|lead|] == lead then
      match ParseIntPrefix(s[|lead|..])
      case Some((n, tail)) => if tail == unit then Some(n) else None
      case None => None
    else
      None
  }

  /** Reads a text of the form `Render` writes. */
  function ParseAgeText(s: string): Option<AgeText>
  {
    if s == NoRecentDataText then
      Some(NoRecentData)
    else
      match ParseIntPrefix(s)
      case None => None
      case Some((a, rest)) => ParseUnits(a, rest)
  }

  /** Reads the units that follow the leading number `a` of an age text. */
  function ParseUnits(a: int, rest: string): Option<AgeText>
  {
    if rest == " Seconds" then Some(Seconds(a))
    else
      match ParseUnit(rest, " Minutes ", " Seconds")
      case Some(b) => Some(MinutesSeconds(a, b))
      case None =>
        match ParseUnit(rest, " Hours ", " Minutes")
        case Some(b) => Some(HoursMinutes(a, b))
        case None =>
          match ParseUnit(rest, " Days ", " Hours")
          case Some(b) => Some(DaysHours(a, b))
          case None => None
  }

  /** A lead, a number and a unit are read back as that number. */
  lemma ParseUnitOfRendered(lead: string, n: int, unit: string)
    requires |unit| == 0 || !IsDigit(unit[0])
    ensures ParseUnit(lead + IntStr(n) + unit, lead, unit) == Some(n)
  {
    var s := lead + IntStr(n) + unit;
    assert s[..|lead|] == lead;
    assert s[|lead|..] == IntStr(n) + unit;
    ParseIntPrefixOfIntStr(n, unit);
  }

  /** A text whose second character differs from that of `lead` does not start with `lead`. */
  lemma ParseUnitMismatch(s: string, lead: string, unit: string)
    requires |s| > 1 && |lead| > 1 && s[1] != lead[1]
    ensures ParseUnit(s, lead, unit) == None
  {
    if |s| >= |lead| {
      assert s[..|lead|][1] == s[1];
    }
  }

  /** A text that starts with the number `a` followed by `rest` is read through `ParseUnits`. */
  lemma ParseAgeTextOfNumber(a: int, rest: string)
    requires |rest| > 0 && !IsDigit(rest[0])
    ensures ParseAgeText(IntStr(a) + rest) == ParseUnits(a, rest)
  {
    var s := IntStr(a) + rest;
    assert s[0] == IntStr(a)[0];
    assert s != NoRecentDataText;
    ParseIntPrefixOfIntStr(a, rest);
  }

  lemma ParseUnitsMinutesSeconds(a: int, b: int)
    ensures ParseUnits(a, " Minutes " + IntStr(b) + " Seconds") == Some(MinutesSeconds(a, b))
  {
    var rest := " Minutes " + IntStr(b) + " Seconds";
    assert rest[1] == 'M';
    ParseUnitOfRendered(" Minutes ", b, " Seconds");
  }

  lemma ParseUnitsHoursMinutes(a: int, b: int)
    ensures ParseUnits(a, " Hours " + IntStr(b) + " Minutes") == Some(HoursMinutes(a, b))
  {
    var rest := " Hours " + IntStr(b) + " Minutes";
    assert rest[1] == 'H';
    ParseUnitMismatch(rest, " Minutes ", " Seconds");
    ParseUnitOfRendered(" Hours ", b, " Minutes");
  }

  lemma ParseUnitsDaysHours(a: int, b: int)
    ensures ParseUnits(a, " Days " + IntStr(b) + " Hours") == Some(DaysHours(a, b))
  {
    var rest := " Days " + IntStr(b) + " Hours";
    assert rest[1] == 'D';
    ParseUnitMismatch(rest, " Minutes ", " Seconds");
    ParseUnitMismatch(rest, " Hours ", " Minutes");
    ParseUnitOfRendered(" Days ", b, " Hours");
  }

  lemma RoundTripMinutesSeconds(a: int, b: int)
    ensures ParseAgeText(Render(MinutesSeconds(a, b))) == Some(MinutesSeconds(a, b))
  {
    var rest := " Minutes " + IntStr(b) + " Seconds";
    assert Render(MinutesSeconds(a, b)) == IntStr(a) + rest;
    ParseAgeTextOfNumber(a, rest);
    ParseUnitsMinutesSeconds(a, b);
  }

  lemma RoundTripHoursMinutes(a: int, b: int)
    ensures ParseAgeText(Render(HoursMinutes(a, b))) == Some(HoursMinutes(a, b))
  {
    var rest := " Hours " + IntStr(b) + " Minutes";
    assert Render(HoursMinutes(a, b)) == IntStr(a) + rest;
    ParseAgeTextOfNumber(a, rest);
    ParseUnitsHoursMinutes(a, b);
  }

  lemma RoundTripDaysHours(a: int, b: int)
    ensures ParseAgeText(Render(DaysHours(a, b))) == Some(DaysHours(a, b))
  {
    var rest := " Days " + IntStr(b) + " Hours";
    assert Render(DaysHours(a, b)) == IntStr(a) + rest;
    ParseAgeTextOfNumber(a, rest);
    ParseUnitsDaysHours(a, b);
  }

  /** Every text `Render` writes reads back as the units it was written from. */
  lemma AgeTextRoundTrip(t: AgeText)
    ensures ParseAgeText(Render(t)) == Some(t)
  {
    match t
    case NoRecentData =>
    case Seconds(a) => ParseAgeTextOfNumber(a, " Seconds");
    case MinutesSeconds(a, b) => RoundTripMinutesSeconds(a, b);
    case HoursMinutes(a, b) => RoundTripHoursMinutes(a, b);
    case DaysHours(a, b) => RoundTripDaysHours(a, b);
  }

  /** Different units never render to the same text. */
  lemma RenderInjective(t1: AgeText, t2: AgeText)
    requires Render(t1) == Render(t2)
    ensures t1 == t2
  {
    AgeTextRoundTrip(t1);
    AgeTextRoundTrip(t2);
  }

  /** The formatter says "No recent data" exactly for ages of ten days or more. */
  lemma AgeStringNoRecentDataIff(age: int)
    ensures AgeString(age) == NoRecentDataText <==> age >= NoDataAge
  {
    if AgeString(age) == NoRecentDataText {
      RenderInjective(Describe(age), NoRecentData);
    }
  }

  /** The age units state exactly: seconds, or minutes and seconds. */
  function ExactAge(t: AgeText): Option<int>
  {
    match t
    case Seconds(n) => Some(n)
    case MinutesSeconds(m, n) => Some(m * SecondsPerMinute + n)
    case _ => None
  }

  /** The age units state up to their rounded last unit: hours and minutes, or days and hours. */
  function ApproxAge(t: AgeText): Option<int>
  {
    match t
    case HoursMinutes(h, m) => Some(h * SecondsPerHour + m * SecondsPerMinute)
    case DaysHours(d, h) => Some(d * SecondsPerDay + h * SecondsPerHour)
    case _ => None
  }

  /** The age a text states exactly, if it states one. */
  function ReadExactAge(s: string): Option<int>
  {
    match ParseAgeText(s)
    case Some(t) => ExactAge(t)
    case None => None
  }

  /** The age a text states approximately, if it states one. */
  function ReadApproxAge(s: string): Option<int>
  {
    match ParseAgeText(s)
    case Some(t) => ApproxAge(t)
    case None => None
  }

  /** Below an hour the chosen units give the age exactly; from an hour on they are not exact. */
  lemma DescribeExact(age: int)
    ensures age < SecondsPerHour ==> ExactAge(Describe(age)) == Some(age)
    ensures age >= SecondsPerHour ==> ExactAge(Describe(age)) == None
  {
  }

  /** Between an hour and ten days the chosen units give the age to within half of their last unit. */
  lemma DescribeApproximates(age: int)
    requires SecondsPerHour <= age < NoDataAge
    ensures ApproxAge(Describe(age)).Some?
    ensures age < SecondsPerDay ==> -30 <= age - ApproxAge(Describe(age)).value <= 30
    ensures age >= SecondsPerDay ==> -1800 <= age - ApproxAge(Describe(age)).value <= 1800
  {
  }

  /** Below an hour the text gives the age exactly; from an hour on it never claims to. */
  lemma AgeStringExactBelowHour(age: int)
    ensures age < SecondsPerHour ==> ReadExactAge(AgeString(age)) == Some(age)
    ensures age >= SecondsPerHour ==> ReadExactAge(AgeString(age)) == None
  {
    var t := Describe(age);
    AgeTextRoundTrip(t);
    assert ReadExactAge(AgeString(age)) == ExactAge(t);
    DescribeExact(age);
  }

  /** Between an hour and ten days the text gives the age to within half of its last unit. */
  lemma AgeStringApproximates(age: int)
    requires SecondsPerHour <= age < NoDataAge
    ensures ReadApproxAge(AgeString(age)).Some?
    ensures age < SecondsPerDay ==> -30 <= age - ReadApproxAge(AgeString(age)).value <= 30
    ensures age >= SecondsPerDay ==> -1800 <= age - ReadApproxAge(AgeString(age)).value <= 1800
  {
    var t := Describe(age);
    AgeTextRoundTrip(t);
    assert ReadApproxAge(AgeString(age)) == ApproxAge(t);
    DescribeApproximates(age);
  }

  /** Sample values below an hour. */
  lemma AgeStringExamplesBelowHour()
    ensures AgeString(45) == "45 Seconds"
    ensures AgeString(90) == "1 Minutes 30 Seconds"
  {
    assert AgeString(45) == "45 Seconds" by {
      assert Describe(45) == Seconds(45);
      assert IntStr(45) == "45";
    }
    assert AgeString(90) == "1 Minutes 30 Seconds" by {
      assert Describe(90) == MinutesSeconds(1, 30);
      assert IntStr(30) == "30";
    }
  }

  /** Sample values below a day; the rounding can leave "60 Minutes" in place. */
  lemma AgeStringExamplesBelowDay()
    ensures AgeString(3661) == "1 Hours 1 Minutes"
    ensures AgeString(7170) == "1 Hours 60 Minutes"
  {
    assert AgeString(3661) == "1 Hours 1 Minutes" by {
      assert Describe(3661) == HoursMinutes(1, 1);
    }
    assert AgeString(7170) == "1 Hours 60 Minutes" by {
      assert Describe(7170) == HoursMinutes(1, 60);
      assert IntStr(60) == "60";
    }
  }

  /** Sample values from a day on, around the ten-day boundary; the rounding can leave "24 Hours" in place. */
  lemma AgeStringExamplesFromDay()
    ensures AgeString(90000) == "1 Days 1 Hours"
    ensures AgeString(863999) == "9 Days 24 Hours"
    ensures AgeString(864000) == "No recent data"
  {
    assert AgeString(90000) == "1 Days 1 Hours" by {
      assert Describe(90000) == DaysHours(1, 1);
    }
    assert AgeString(863999) == "9 Days 24 Hours" by {
      assert Describe(863999) == DaysHours(9, 24);
      assert IntStr(24) == "24";
    }
  }
}
