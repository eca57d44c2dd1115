/** The display time of a stored event: the UTC instant shifted by the fixed
    India Standard Time offset (+5:30) and rendered with the pattern
    `%d %b %Y - %I:%M %p IST`, for example `07 Mar 2025 - 02:05 PM IST`.

    Instants are milliseconds since 1970-01-01T00:00:00. */
module Display {
  import opened Wrappers
  import opened Calendar
  import Text

  const MsPerMinute := 60_000
  const MinutesPerDay := 1440

  /** The IST offset, 5 h 30 min, in milliseconds. */
  const IstOffsetMs := (5 * 60 + 30) * MsPerMinute

  // ---------------------------------------------------------------------------
  // The 12-hour clock
  // ---------------------------------------------------------------------------

  /** A time of day on the 12-hour clock: `hour` in 1..12 and an AM/PM flag. */
  datatype Hour12 = Hour12(hour: int, pm: bool)

  /** The 24-hour hour a 12-hour reading names. */
  function To24(h: Hour12): int
    requires 1 <= h.hour <= 12
  {
    h.hour % 12 + (if h.pm then 12 else 0)
  }

  /** `%I` and `%p` of a 24-hour hour: 0 is 12 AM, 12 is 12 PM, 13 is 1 PM. */
  function To12(h: int): (r: Hour12)
    requires 0 <= h < 24
    ensures 1 <= r.hour <= 12
    ensures r.pm <==> h >= 12
    ensures To24(r) == h
  {
    var hour := h % 12;
    Hour12(if hour == 0 then 12 else hour, h >= 12)
  }

  /** Every 12-hour reading comes from exactly one 24-hour hour. */
  lemma To12RoundTrip(h: Hour12)
    requires 1 <= h.hour <= 12
    ensures 0 <= To24(h) < 24 && To12(To24(h)) == h
  {
  }

  // ---------------------------------------------------------------------------
  // Broken-down display time
  // ---------------------------------------------------------------------------

  /** The fields the display pattern prints. */
  datatype Stamp = Stamp(date: Date, clock: Hour12, minute: int)

  predicate ValidStamp(s: Stamp) {
    ValidDate(s.date) && 1 <= s.clock.hour <= 12 && 0 <= s.minute < 60
  }

  /** The minute, counted from the epoch, that a stamp names. */
  function MinuteOf(s: Stamp): int
    requires ValidStamp(s)
  {
    DaysFromCivil(s.date) * MinutesPerDay + To24(s.clock) * 60 + s.minute
  }

  /** The broken-down fields of instant `t`, to the minute. */
  function StampOf(t: int): (s: Stamp)
    ensures ValidStamp(s)
    ensures MinuteOf(s) == t / MsPerMinute
  {
    var minutes := t / MsPerMinute;
    var ofDay := minutes % MinutesPerDay;
    Stamp(CivilFromDays(minutes / MinutesPerDay), To12(ofDay / 60), ofDay % 60)
  }

  /** Valid stamps are equal exactly when they name the same minute. */
  lemma MinuteOfInjective(a: Stamp, b: Stamp)
    requires ValidStamp(a) && ValidStamp(b)
    ensures MinuteOf(a) == MinuteOf(b) <==> a == b
  {
    if MinuteOf(a) == MinuteOf(b) {
      var ma := To24(a.clock) * 60 + a.minute;
      var mb := To24(b.clock) * 60 + b.minute;
      assert 0 <= ma < MinutesPerDay && 0 <= mb < MinutesPerDay;
      assert DaysFromCivil(a.date) == DaysFromCivil(b.date);
      DaysFromCivilInjective(a.date, b.date);
      assert To24(a.clock) == To24(b.clock);
      To12RoundTrip(a.clock);
      To12RoundTrip(b.clock);
    }
  }

  // ---------------------------------------------------------------------------
  // Rendering and reading back
  // ---------------------------------------------------------------------------

  const MonthNames: seq<string> :=
    ["Jan", "Feb", "Mar", "Apr", "May", "Jun", "Jul", "Aug", "Sep", "Oct", "Nov", "Dec"]

  /** `%b` in the C locale. */
  function MonthAbbr(m: int): (r: string)
    requires 1 <= m <= 12
    ensures |r| == 3 && MonthNumber(r) == Some(m)
  {
    MonthNames[m - 1]
  }

  /** The month an abbreviation names, if any. */
  function MonthNumber(s: string): (r: Option<int>)
    ensures r.Some? ==> 1 <= r.value <= 12 && MonthNames[r.value - 1] == s
    ensures r.None? ==> s !in MonthNames
  {
    if s == "Jan" then Some(1) else if s == "Feb" then Some(2)
    else if s == "Mar" then Some(3) else if s == "Apr" then Some(4)
    else if s == "May" then Some(5) else if s == "Jun" then Some(6)
    else if s == "Jul" then Some(7) else if s == "Aug" then Some(8)
    else if s == "Sep" then Some(9) else if s == "Oct" then Some(10)
    else if s == "Nov" then Some(11) else if s == "Dec" then Some(12)
    else None
  }

  function AmPm(pm: bool): string {
    if pm then "PM" else "AM"
  }

  /** `%d %b ` */
  function Head(s: Stamp): (r: string)
    requires ValidStamp(s)
    ensures |r| == 7
  {
    Text.Pad2(s.date.day) + " " + MonthAbbr(s.date.month) + " "
  }

  /** ` - %I:%M %p IST` */
  function Tail(s: Stamp): (r: string)
    requires ValidStamp(s)
    ensures |r| == 15
  {
    " - " + Text.Pad2(s.clock.hour) + ":" + Text.Pad2(s.minute) + " " + AmPm(s.clock.pm) + " IST"
  }

  /** The text `strftime("%d %b %Y - %I:%M %p IST")` prints for a stamp. */
  function Render(s: Stamp): (r: string)
    requires ValidStamp(s)
    ensures Parse(r) == Some(s)
  {
    var head, year, tail := Head(s), Text.IntToDecimal(s.date.year), Tail(s);
    var r := head + year + tail;
    assert r[..7] == head;
    assert r[7..|r| - 15] == year;
    assert r[|r| - 15..] == tail;
    HeadRoundTrip(s);
    TailRoundTrip(s);
    r
  }

  /** Reads the day and month out of `%d %b `. */
  function ParseHead(h: string): Option<(int, int)>
    requires |h| == 7
  {
    match (Text.ParseNat(h[..2]), MonthNumber(h[3..6]))
    case (Some(day), Some(month)) =>
      if h[2] == ' ' && h[6] == ' ' then Some((day, month)) else None
    case _ => None
  }

  /** Reads hour, minute and AM/PM out of ` - %I:%M %p IST`. */
  function ParseTail(t: string): Option<(Hour12, int)>
    requires |t| == 15
  {
    match (Text.ParseNat(t[3..5]), Text.ParseNat(t[6..8]))
    case (Some(hour), Some(minute)) =>
      if t[..3] == " - " && t[5] == ':' && t[8] == ' ' && t[11..] == " IST"
         && (t[9..11] == "AM" || t[9..11] == "PM")
      then Some((Hour12(hour, t[9..11] == "PM"), minute))
      else None
    case _ => None
  }

  /** Reads a display time back into its fields. */
  function Parse(text: string): Option<Stamp> {
    if |text| < 23 then None
    else
      match (ParseHead(text[..7]), Text.ParseCanonicalInt(text[7..|text| - 15]), ParseTail(text[|text| - 15..]))
      case (Some((day, month)), Some(year), Some((clock, minute))) =>
        Some(Stamp(Date(year, month, day), clock, minute))
      case _ => None
  }

  lemma HeadRoundTrip(s: Stamp)
    requires ValidStamp(s)
    ensures ParseHead(Head(s)) == Some((s.date.day, s.date.month))
  {
    var h := Head(s);
    assert h[..2] == Text.Pad2(s.date.day);
    assert h[3..6] == MonthAbbr(s.date.month);
  }

  lemma TailRoundTrip(s: Stamp)
    requires ValidStamp(s)
    ensures ParseTail(Tail(s)) == Some((s.clock, s.minute))
  {
    var t := Tail(s);
    assert t[3..5] == Text.Pad2(s.clock.hour);
    assert t[6..8] == Text.Pad2(s.minute);
    assert t[9..11] == AmPm(s.clock.pm);
    assert t[..3] == " - ";
    assert t[11..] == " IST";
  }

  /** Text that reads back as the day and month of a valid stamp is the
      `%d %b ` those fields print. */
  lemma HeadUnique(h: string, s: Stamp)
    requires |h| == 7 && ValidStamp(s)
    requires ParseHead(h) == Some((s.date.day, s.date.month))
    ensures Head(s) == h
  {
    Text.Pad2Unique(h[..2]);
    assert h == h[..2] + [h[2]] + h[3..6] + [h[6]];
  }

  /** Text that reads back as the clock and minute of a valid stamp is the
      ` - %I:%M %p IST` those fields print. */
  lemma TailUnique(t: string, s: Stamp)
    requires |t| == 15 && ValidStamp(s)
    requires ParseTail(t) == Some((s.clock, s.minute))
    ensures Tail(s) == t
  {
    Text.Pad2Unique(t[3..5]);
    Text.Pad2Unique(t[6..8]);
    assert t[9..11] == AmPm(s.clock.pm);
    assert t == t[..3] + t[3..5] + [t[5]] + t[6..8] + [t[8]] + t[9..11] + t[11..];
  }

  /** A text reads back as a valid stamp exactly when it is what `Render`
      prints for that stamp: each stamp has one display text. */
  lemma ParseRender(text: string, s: Stamp)
    requires ValidStamp(s)
    ensures Parse(text) == Some(s) <==> text == Render(s)
  {
    if Parse(text) == Some(s) {
      var h, y, t := text[..7], text[7..|text| - 15], text[|text| - 15..];
      assert ParseHead(h) == Some((s.date.day, s.date.month));
      assert Text.ParseCanonicalInt(y) == Some(s.date.year);
      assert ParseTail(t) == Some((s.clock, s.minute));
      HeadUnique(h, s);
      TailUnique(t, s);
      assert Text.IntToDecimal(s.date.year) == y;
      assert text == h + y + t;
    }
  }

  // ---------------------------------------------------------------------------
  // The displayed timestamp of a stored instant
  // ---------------------------------------------------------------------------

  /** The `timestamp` string shown for an event stored at UTC instant `utc`:
      it reads back as a valid date and 12-hour time naming exactly the
      minute that contains `utc + 5:30`, with PM iff that minute's 24-hour
      hour is 12 or later. */
  function DisplayTime(utc: int): (r: string)
    ensures Parse(r).Some?
    ensures var s := Parse(r).value;
      && ValidStamp(s)
      && MinuteOf(s) == (utc + IstOffsetMs) / MsPerMinute
      && (s.clock.pm <==> ((utc + IstOffsetMs) / MsPerMinute) % MinutesPerDay >= 12 * 60)
  {
    var s := StampOf(utc + IstOffsetMs);
    Render(s)
  }

  /** The contract of `DisplayTime` pins the text: a string is the shown
      timestamp exactly when it reads back as a valid stamp naming the minute
      of `utc + 5:30`. */
  lemma DisplayTimeDetermined(utc: int, text: string)
    ensures text == DisplayTime(utc) <==>
      && Parse(text).Some?
      && ValidStamp(Parse(text).value)
      && MinuteOf(Parse(text).value) == (utc + IstOffsetMs) / MsPerMinute
  {
    var s := StampOf(utc + IstOffsetMs);
    if Parse(text).Some? && ValidStamp(Parse(text).value) {
      MinuteOfInjective(Parse(text).value, s);
      ParseRender(text, s);
    }
  }
}
