/**
 Quiet hours of the autonomy dispatcher: when a deferred job may be released.
 Instants are nanoseconds since the epoch, offsets are seconds east of UTC.
 */
module QuietHours {
  import opened Wrappers
  import opened Blake3
  import opened Utf8
  import opened Decimals

  const SECOND: int := 1_000_000_000
  const HOUR: int := 3600 * SECOND
  const DAY: int := 24 * HOUR

  datatype QuietHoursPolicy = QuietHoursPolicy(timezone: string, startHour: nat, endHour: nat)

  // ---------------------------------------------------------------- time zones

  const PLUS: byte := 43
  const MINUS: byte := 45
  const COLON: byte := 58

  predicate IsDigit(b: byte) {
    48 <= b <= 57
  }

  function DigitValue(b: byte): int
    requires IsDigit(b)
  {
    b as int - 48
  }

  /** Two bytes read as a signed integer: two digits, or a sign and one digit. */
  function ParseTwo(a: byte, b: byte): Option<int> {
    if !IsDigit(b) then None
    else if IsDigit(a) then Some(10 * DigitValue(a) + DigitValue(b))
    else if a == PLUS then Some(DigitValue(b))
    else if a == MINUS then Some(-DigitValue(b))
    else None
  }

  predicate EqualsIgnoringCase(raw: string, lower: string) {
    |raw| == |lower| &&
    forall i :: 0 <= i < |raw| ==>
                  raw[i] == lower[i] || ('A' <= raw[i] <= 'Z' && raw[i] as int + 32 == lower[i] as int)
  }

  predicate IsUtc(raw: string) {
    EqualsIgnoringCase(raw, "utc") || raw == "Z"
  }

  /** What reading a zone comes to; slicing inside a character panics. */
  datatype Zone = Panics | Unreadable | Offset(seconds: int)

  /** `parse_fixed_timezone`: the length and the slices are in bytes. */
  function ParseFixedTimezone(raw: string): (zone: Zone)
    ensures zone.Offset? ==> -DAY < zone.seconds * SECOND < DAY
  {
    if IsUtc(raw) then Offset(0)
    else if Size(raw) != 6 then Unreadable
    else
      match Slice(raw, 3, 4)
      case None => Panics
      case Some(separator) => if separator[0] != COLON then Unreadable else ParseSigned(raw)
  }

  function ParseSigned(raw: string): (zone: Zone)
    ensures zone.Offset? ==> -DAY < zone.seconds * SECOND < DAY
  {
    match (Slice(raw, 0, 1), Slice(raw, 1, 3), Slice(raw, 4, 6))
    case (Some(sign), Some(hours), Some(minutes)) =>
      if sign[0] != PLUS && sign[0] != MINUS then Unreadable
      else OffsetOf(sign[0] == PLUS, ParseTwo(hours[0], hours[1]), ParseTwo(minutes[0], minutes[1]))
    case _ => Panics
  }

  function OffsetOf(east: bool, hours: Option<int>, minutes: Option<int>): Zone {
    if hours.None? || minutes.None? || hours.value > 23 || minutes.value > 59 then Unreadable
    else Offset((if east then 1 else -1) * (hours.value * 3600 + minutes.value * 60))
  }

  /**
   A zone makes the reader panic exactly when it has six bytes and byte 3 or 4 is inside a
   character, or byte 1 is inside one and byte 3 is the colon.
   */
  lemma ZonePanicsExactly(raw: string)
    ensures ParseFixedTimezone(raw).Panics? <==>
            && !IsUtc(raw) && Size(raw) == 6
            && (!IsBoundary(raw, 3) || !IsBoundary(raw, 4) || (Bytes(raw)[3] == COLON && !IsBoundary(raw, 1)))
  {
    FirstBoundary(raw);
  }

  /** A letter in either case. */
  predicate IsLetter(c: char, capital: char, small: char) {
    c == capital || c == small
  }

  /** The names of UTC: these three letters in any case, or a capital Z. */
  lemma UtcNames(raw: string)
    ensures IsUtc(raw) <==>
            || raw == "Z"
            || (|raw| == 3 && IsLetter(raw[0], 'U', 'u') && IsLetter(raw[1], 'T', 't') && IsLetter(raw[2], 'C', 'c'))
    ensures IsUtc(raw) ==> ParseFixedTimezone(raw) == Offset(0)
  {
  }

  /** The number that two characters are read as: two digits, or a sign and a digit. */
  function Number(a: char, b: char): Option<int> {
    if !('0' <= b <= '9') then None
    else if '0' <= a <= '9' then Some(10 * (a as int - '0' as int) + (b as int - '0' as int))
    else if a == '+' then Some(b as int - '0' as int)
    else if a == '-' then Some('0' as int - b as int)
    else None
  }

  /** An ASCII text is an offset exactly when it is a sign, hours, a colon and minutes. */
  lemma OffsetsExactly(raw: string)
    requires Ascii(raw) && !IsUtc(raw)
    ensures ParseFixedTimezone(raw) ==
            if |raw| == 6 && raw[3] == ':' && (raw[0] == '+' || raw[0] == '-')
               && Number(raw[1], raw[2]).Some? && Number(raw[4], raw[5]).Some?
               && Number(raw[1], raw[2]).value <= 23 && Number(raw[4], raw[5]).value <= 59
            then Offset((if raw[0] == '+' then 1 else -1) *
                        (Number(raw[1], raw[2]).value * 3600 + Number(raw[4], raw[5]).value * 60))
            else Unreadable
  {
    AsciiBytes(raw);
    var bs := Bytes(raw);
    if |raw| == 6 {
      assert forall k :: 0 <= k < 6 ==> bs[k] as int == raw[k] as int;
      assert IsBoundary(raw, 0) && IsBoundary(raw, 1) && IsBoundary(raw, 3) && IsBoundary(raw, 4) && IsBoundary(raw, 6);
      assert bs[3..4] == [bs[3]] && bs[0..1] == [bs[0]] && bs[1..3] == [bs[1], bs[2]] && bs[4..6] == [bs[4], bs[5]];
      NumberOfBytes(bs[1], bs[2], raw[1], raw[2]);
      NumberOfBytes(bs[4], bs[5], raw[4], raw[5]);
    }
  }

  lemma NumberOfBytes(a: byte, b: byte, c: char, d: char)
    requires a as int == c as int && b as int == d as int
    ensures ParseTwo(a, b) == Number(c, d)
  {
  }

  /** No ASCII text does. */
  lemma AsciiZoneNeverPanics(raw: string)
    requires Ascii(raw)
    ensures !ParseFixedTimezone(raw).Panics?
  {
    ZonePanicsExactly(raw);
    AsciiBytes(raw);
  }

  /** Two of the zones that do: two euro signs, and an accented letter where the sign should be. */
  lemma PanickingZones()
    ensures ParseFixedTimezone(['\U{20AC}', '\U{20AC}']).Panics?
    ensures ParseFixedTimezone(['\U{E9}', '0', ':', '0', '0']).Panics?
  {
    var euros, accent := ['\U{20AC}', '\U{20AC}'], ['\U{E9}', '0', ':', '0', '0'];
    ZonePanicsExactly(euros);
    BytesOfTwo('\U{20AC}', '\U{20AC}');
    ZonePanicsExactly(accent);
    BytesOfAccent();
  }

  lemma BytesOfTwo(a: char, b: char)
    ensures Bytes([a, b]) == Encode(a) + Encode(b)
  {
    BytesAppend([a], [b]);
    assert [a] + [b] == [a, b] && [a][1..] == "" && [b][1..] == "";
  }

  lemma BytesOfAccent()
    ensures Bytes(['\U{E9}', '0', ':', '0', '0']) == [0xC3, 0xA9, 48, COLON, 48, 48]
  {
    var rest := ['0', ':', '0', '0'];
    BytesAppend(['\U{E9}'], rest);
    AsciiBytes(rest);
    assert ['\U{E9}'] + rest == ['\U{E9}', '0', ':', '0', '0'] && ['\U{E9}'][1..] == "";
    assert Bytes(rest) == [48, COLON, 48, 48];
  }

  function FormatOffset(east: bool, hours: nat, minutes: nat): string
    requires hours < 24 && minutes < 60
  {
    [if east then '+' else '-', Digit(hours / 10), Digit(hours % 10), ':', Digit(minutes / 10), Digit(minutes % 10)]
  }

  /** Every offset written in the usual form is read back. */
  lemma TimezoneRoundTrip(east: bool, hours: nat, minutes: nat)
    requires hours < 24 && minutes < 60
    ensures ParseFixedTimezone(FormatOffset(east, hours, minutes)) ==
            Offset((if east then 1 else -1) * (hours * 3600 + minutes * 60))
  {
    var raw := FormatOffset(east, hours, minutes);
    AsciiBytes(raw);
    var bs := Bytes(raw);
    assert forall k :: 0 <= k < 6 ==> bs[k] as int == raw[k] as int;
    assert IsBoundary(raw, 0) && IsBoundary(raw, 1) && IsBoundary(raw, 3) && IsBoundary(raw, 4) && IsBoundary(raw, 6);
    assert bs[3] as int == 58;
    assert bs[3..4] == [COLON] && bs[0..1] == [bs[0]] && bs[1..3] == [bs[1], bs[2]] && bs[4..6] == [bs[4], bs[5]];
    assert ParseTwo(bs[1], bs[2]) == Some(hours);
    assert ParseTwo(bs[4], bs[5]) == Some(minutes);
  }

  // ---------------------------------------------------------------- the window

  function Local(offset: int, t: int): int {
    t + offset * SECOND
  }

  function HourAt(offset: int, t: int): (h: nat)
    ensures h < 24
  {
    Local(offset, t) % DAY / HOUR
  }

  predicate InWindow(p: QuietHoursPolicy, hour: nat) {
    if p.startHour < p.endHour then p.startHour <= hour < p.endHour
    else hour >= p.startHour || hour < p.endHour
  }

  predicate Quiet(p: QuietHoursPolicy, offset: int, t: int) {
    InWindow(p, HourAt(offset, t))
  }

  /** Nothing to wait for, an instant to wait for, or a panic while reading the zone. */
  datatype Release = Crash | Now | At(instant: int)

  function QuietHoursReleaseAt(p: QuietHoursPolicy, now: int): Release {
    match ParseFixedTimezone(p.timezone)
    case Panics => Crash
    case Unreadable => Now
    case Offset(offset) =>
      var hour := HourAt(offset, now);
      if !InWindow(p, hour) then Now
      else
        var today := Local(offset, now) / DAY;
        var target := if p.startHour >= p.endHour && hour >= p.startHour then today + 1 else today;
        if p.endHour > 23 then Now
        else At(target * DAY + p.endHour * HOUR - offset * SECOND)
  }

  /** An instant written as day, hour and the nanoseconds left, in local time, has that hour. */
  lemma LocalHour(offset: int, t: int, day: int, hour: nat, rest: nat)
    requires t + offset * 1_000_000_000 == day * 86_400_000_000_000 + hour * 3_600_000_000_000 + rest
    requires hour < 24 && rest < 3_600_000_000_000
    ensures HourAt(offset, t) == hour
  {
    HourOfDay(offset, t, day, hour, rest);
  }

  /**
   The window begins with its first hour and ends before its last, on the dial of 24 hours; if the two
   are the same it is the whole day.
   */
  lemma WindowOnTheDial(p: QuietHoursPolicy, k: nat)
    requires p.startHour < 24 && p.endHour < 24 && k < 24
    ensures InWindow(p, (p.startHour + k) % 24) <==> p.startHour == p.endHour || k < (p.endHour + 24 - p.startHour) % 24
  {
  }

  /** An instant written as day, hour and rest has that hour. */
  lemma HourOfDay(offset: int, t: int, day: int, hour: nat, rest: int)
    requires Local(offset, t) == day * DAY + hour * HOUR + rest && hour < 24 && 0 <= rest < HOUR
    ensures HourAt(offset, t) == hour && Local(offset, t) / DAY == day
  {
    var within := hour * HOUR + rest;
    assert 0 <= within < DAY;
    assert Local(offset, t) / DAY == day && Local(offset, t) % DAY == within;
    assert within / HOUR == hour;
  }

  /** From an instant in the window to the end of it, all hours are in the window. */
  lemma InsideUntil(p: QuietHoursPolicy, offset: int, now: int, release: int, u: int)
    requires Quiet(p, offset, now) && p.endHour <= 23 && now <= u < release
    requires var hour := HourAt(offset, now);
             var today := Local(offset, now) / DAY;
             var target := if p.startHour >= p.endHour && hour >= p.startHour then today + 1 else today;
             Local(offset, release) == target * DAY + p.endHour * HOUR
    ensures Quiet(p, offset, u)
  {
    var today, day := Local(offset, now) / DAY, Local(offset, u) / DAY;
    SplitDay(Local(offset, now));
    SplitDay(Local(offset, u));
    assert today <= day;
    if day == today {
      HourGrows(Local(offset, now) % DAY, Local(offset, u) % DAY);
    } else {
      BeforeHour(Local(offset, u) % DAY, p.endHour);
    }
  }

  lemma SplitDay(t: int)
    ensures t == t / DAY * DAY + t % DAY && 0 <= t % DAY < DAY
  {
  }

  lemma HourGrows(a: int, b: int)
    requires 0 <= a <= b
    ensures a / HOUR <= b / HOUR
  {
  }

  lemma BeforeHour(a: int, hour: nat)
    requires 0 <= a < hour * HOUR
    ensures a / HOUR < hour
  {
  }

  /**
   The release instant is the first one outside the window: it lies in the future, within a day,
   everything before it is quiet, and it is not, unless the window is the whole day (start equal
   to end).  There is no wait exactly when the zone cannot be read, now is not quiet, or the end
   hour is not an hour of the day; and there is no answer at all exactly when the zone panics.
   */
  lemma ReleaseIsFirstInstantOutside(p: QuietHoursPolicy, now: int)
    ensures var zone, r := ParseFixedTimezone(p.timezone), QuietHoursReleaseAt(p, now);
            && (r.Crash? <==> zone.Panics?)
            && (r.Now? <==> zone.Unreadable? || (zone.Offset? && (!Quiet(p, zone.seconds, now) || p.endHour > 23)))
            && (r.At? ==>
                  && now < r.instant <= now + DAY
                  && (forall u :: now <= u < r.instant ==> Quiet(p, zone.seconds, u))
                  && (Quiet(p, zone.seconds, r.instant) <==> p.startHour == p.endHour))
  {
    var zone, r := ParseFixedTimezone(p.timezone), QuietHoursReleaseAt(p, now);
    if r.At? {
      var offset, release := zone.seconds, r.instant;
      var today := Local(offset, now) / DAY;
      assert Local(offset, now) == today * DAY + Local(offset, now) % DAY;
      var wraps := p.startHour >= p.endHour && HourAt(offset, now) >= p.startHour;
      HourOfDay(offset, release, if wraps then today + 1 else today, p.endHour, 0);
      forall u | now <= u < release
        ensures Quiet(p, offset, u)
      {
        InsideUntil(p, offset, now, release, u);
      }
    }
  }
}
