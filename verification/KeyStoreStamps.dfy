// Which timestamps the key store reads: a date, a space or a 'T', a clock and a zone, each
// within its range.
module KeyStoreStamps {
  import opened Wrappers
  import opened Text
  import opened CivilCalendar
  import opened Timestamps

  // The zone a stamp ends in: none, one letter, or a sign before two digits of hours and
  // perhaps two of minutes.
  datatype Zone =
    | Unzoned
    | Zulu(small: bool)
    | Numeric(east: bool, hours: string, minutes: string, form: Form)

  datatype Form = WithColon | WithoutColon | HoursOnly

  predicate IsTwoDigits(s: string) {
    |s| == 2 && AllDigits(s)
  }

  predicate TwoDigits(z: Zone) {
    z.Numeric? ==> IsTwoDigits(z.hours) && IsTwoDigits(z.minutes)
  }

  function Sign(east: bool): char {
    if east then '+' else '-'
  }

  function NumericText(hours: string, minutes: string, form: Form): string {
    match form
    case WithColon => hours + ":" + minutes
    case WithoutColon => hours + minutes
    case HoursOnly => hours
  }

  function ZoneText(z: Zone): string {
    match z
    case Unzoned => ""
    case Zulu(small) => if small then "z" else "Z"
    case Numeric(east, hours, minutes, form) => [Sign(east)] + NumericText(hours, minutes, form)
  }

  function Minutes(z: Zone): nat
    requires z.Numeric? && TwoDigits(z)
  {
    if z.form.HoursOnly? then 0 else Text.Value(z.minutes)
  }

  // The seconds east of UTC a zone spells, whatever its numbers.
  function Seconds(z: Zone): int
    requires TwoDigits(z)
  {
    if z.Numeric? then OffsetSeconds(Sign(z.east), Text.Value(z.hours), Minutes(z)) else 0
  }

  predicate ZoneInRange(z: Zone)
    requires TwoDigits(z)
  {
    z.Numeric? ==> Text.Value(z.hours) <= 23 && Minutes(z) <= 59
  }

  // A stamp as it is written: numbers of any size, and which character joins date and clock.
  datatype Stamp = Stamp(year: nat, month: nat, day: nat, spaced: bool, hour: nat, minute: nat, second: nat,
                         fraction: string, zone: Zone)

  function StampText(t: Stamp): string {
    Padded(t.year, 4) + "-" + Padded(t.month, 2) + "-" + Padded(t.day, 2) + (if t.spaced then " " else "T")
    + (ClockText(t.hour, t.minute, t.second) + t.fraction + ZoneText(t.zone))
  }

  // Numbers of 64 bits, zones of two digits each, and no fraction or a dot and digits.
  predicate Written(t: Stamp) {
    && t.year < I64_LIMIT && t.month < I64_LIMIT && t.day < I64_LIMIT
    && t.hour < I64_LIMIT && t.minute < I64_LIMIT && t.second < I64_LIMIT
    && IsFraction(t.fraction) && TwoDigits(t.zone)
  }

  // The numbers it spells.
  function Spelled(t: Stamp): Fields
    requires Written(t)
  {
    Fields(Date(t.year, t.month, t.day), t.hour, t.minute, t.second, Seconds(t.zone))
  }

  predicate InRange(t: Stamp)
    requires Written(t)
  {
    && 1 <= t.month <= 12 && 1 <= t.day <= 31
    && t.hour <= 23 && t.minute <= 59 && t.second <= 60
    && ZoneInRange(t.zone)
  }

  // ---- Zones ------------------------------------------------------------------

  lemma TwoDigitsSpell(s: string)
    requires IsTwoDigits(s)
    ensures Spells(s, Text.Value(s))
  {
    assert Text.Value(s[..1]) <= 9 by {
      assert s[..1][..0] == [];
    }
    ParseOfDigits(s);
  }

  lemma ZoneParts(zone: string, h: string, m: string, hours: nat, minutes: nat)
    requires zone != [] && (zone[0] == '+' || zone[0] == '-') && Without(zone[1..], ':') == h + m
    requires Spells(h, hours) && Spells(m, minutes)
    ensures ParseZoneOffset(zone)
         == if hours > 23 || minutes > 59 then None else Some(OffsetSeconds(zone[0], hours, minutes))
  {
    assert (h + m)[..2] == h && (h + m)[2..] == m;
  }

  lemma HoursAlone(zone: string, h: string, hours: nat)
    requires zone != [] && (zone[0] == '+' || zone[0] == '-') && Without(zone[1..], ':') == h && Spells(h, hours)
    ensures ParseZoneOffset(zone) == if hours > 23 then None else Some(OffsetSeconds(zone[0], hours, 0))
  {
    assert h[..2] == h;
  }

  lemma FormReads(zone: string, h: string, m: string, hours: nat, minutes: nat, form: Form)
    requires zone != [] && (zone[0] == '+' || zone[0] == '-') && Spells(h, hours) && Spells(m, minutes)
    requires zone[1..] == NumericText(h, m, form)
    ensures ParseZoneOffset(zone)
         == if form.HoursOnly? then if hours > 23 then None else Some(OffsetSeconds(zone[0], hours, 0))
            else if hours > 23 || minutes > 59 then None else Some(OffsetSeconds(zone[0], hours, minutes))
  {
    DigitsAvoid(h, ':');
    DigitsAvoid(m, ':');
    match form {
      case WithColon =>
        ZoneWithoutColon(h, m);
        ZoneParts(zone, h, m, hours, minutes);
      case WithoutColon =>
        WithoutNone(h + m, ':');
        ZoneParts(zone, h, m, hours, minutes);
      case HoursOnly =>
        WithoutNone(h, ':');
        HoursAlone(zone, h, hours);
    }
  }

  lemma NumericReads(z: Zone)
    requires z.Numeric? && TwoDigits(z)
    ensures ParseZoneOffset(ZoneText(z)) == if ZoneInRange(z) then Some(Seconds(z)) else None
  {
    TwoDigitsSpell(z.hours);
    TwoDigitsSpell(z.minutes);
    FormReads(ZoneText(z), z.hours, z.minutes, Text.Value(z.hours), Text.Value(z.minutes), z.form);
  }

  lemma NumericChars(h: string, m: string, form: Form)
    requires IsTwoDigits(h) && IsTwoDigits(m)
    ensures var z := NumericText(h, m, form); ClockLike(z) && z != [] && IsDigit(z[|z| - 1])
  {
    assert IsDigit(h[1]) && IsDigit(m[1]);
  }

  // The clock comes off in front of its zone, or the zone is none.
  lemma ZoneComesOff(clock: string, z: Zone)
    requires ClockLike(clock) && clock != [] && TwoDigits(z)
    ensures StripZone(clock + ZoneText(z)) == if ZoneInRange(z) then Some((clock, Seconds(z))) else None
  {
    var time := clock + ZoneText(z);
    match z {
      case Unzoned =>
        assert time == clock;
        FindLastNone(time, '+');
        FindLastNone(time, '-');
      case Zulu(small) =>
        assert time[..|time| - 1] == clock;
      case Numeric(east, hours, minutes, form) =>
        var digits := NumericText(hours, minutes, form);
        NumericChars(hours, minutes, form);
        assert time == clock + [Sign(east)] + digits;
        ZoneCuts(clock, Sign(east), digits, time);
        NumericReads(z);
        SignedComesOff(time, clock, ZoneText(z));
    }
  }

  lemma SignedComesOff(time: string, clock: string, zone: string)
    requires Strips(time, clock, zone)
    ensures StripZone(time)
         == if ParseZoneOffset(zone).Some? then Some((clock, ParseZoneOffset(zone).value)) else None
  {
  }

  // ---- Date and clock -----------------------------------------------------------

  lemma HalvesOf(date: string, spaced: bool, rest: string, text: string)
    requires 'T' !in date && ' ' !in date && text == date + (if spaced then " " else "T") + rest
    ensures SplitDateTime(text) == Some((date, rest))
  {
    var (mark, other) := if spaced then (' ', 'T') else ('T', ' ');
    assert text == date + [mark] + rest;
    FindAt(date, mark, rest);
    FindBeyond(date, mark, rest, other);
    assert text[..|date|] == date && text[|date| + 1..] == rest;
  }

  lemma OtherParts(parts: seq<string>, rest: string)
    requires parts != []
    ensures |parts| != 3 ==> DbFieldsOf(parts, rest) == None
    ensures StripZone(rest).Some? && |Split(StripZone(rest).value.0, ':')| != 3 ==> DbFieldsOf(parts, rest) == None
  {
  }

  // A date of other than three parts is refused, and so is a clock.
  lemma PartsAreThree(raw: string, date: string, spaced: bool, rest: string)
    requires 'T' !in date && ' ' !in date && Trim(raw) == date + (if spaced then " " else "T") + rest
    ensures |Split(date, '-')| != 3 ==> DbFields(raw) == None
    ensures StripZone(rest).Some? && |Split(StripZone(rest).value.0, ':')| != 3 ==> DbFields(raw) == None
  {
    HalvesOf(date, spaced, rest, Trim(raw));
    DbFieldsSplit(raw, date, rest);
    OtherParts(Split(date, '-'), rest);
  }

  lemma DashedChars(y: string, m: string, d: string)
    requires AllDigits(y) && AllDigits(m) && AllDigits(d) && y != []
    ensures DateChars(y + "-" + m + "-" + d)
  {
  }

  lemma DateOf(t: Stamp)
    requires Written(t)
    ensures var date := Padded(t.year, 4) + "-" + Padded(t.month, 2) + "-" + Padded(t.day, 2);
            && DateChars(date) && Split(date, '-') == [Padded(t.year, 4), Padded(t.month, 2), Padded(t.day, 2)]
    ensures ParseI64(Padded(t.year, 4)) == Some(t.year) && ParseI64(Padded(t.month, 2)) == Some(t.month)
    ensures ParseI64(Padded(t.day, 2)) == Some(t.day)
  {
    var (y, m, d) := (Padded(t.year, 4), Padded(t.month, 2), Padded(t.day, 2));
    PaddedDigits(t.year, 4);
    PaddedDigits(t.month, 2);
    PaddedDigits(t.day, 2);
    DashedChars(y, m, d);
    DashedSplits(y, m, d);
    ParsePadded(t.year, 4);
    ParsePadded(t.month, 2);
    ParsePadded(t.day, 2);
  }

  lemma ClockOf(t: Stamp, d: Date, offset: int)
    requires Written(t)
    ensures var clock := ClockText(t.hour, t.minute, t.second) + t.fraction;
            && ClockLike(clock) && clock != []
            && DbClockFields(d, Split(clock, ':'), offset)
               == if t.hour <= 23 && t.minute <= 59 && t.second <= 60
                  then Some(Fields(d, t.hour, t.minute, t.second, offset)) else None
  {
    var clock := ClockText(t.hour, t.minute, t.second) + t.fraction;
    FractionClock(t.hour, t.minute, t.second, t.fraction);
    PlainClockSplits(t.hour, t.minute, t.second, t.fraction, clock);
    ParsePadded(t.hour, 2);
    ParsePadded(t.minute, 2);
    ParsePadded(t.second, 2);
    ClockInRange(d, Split(clock, ':'), t.hour, t.minute, t.second, offset);
  }

  lemma ClockInRange(d: Date, parts: seq<string>, h: nat, m: nat, s: nat, offset: int)
    requires |parts| == 3 && ParseI64(parts[0]) == Some(h) && ParseI64(parts[1]) == Some(m)
    requires ParseI64(Split(parts[2], '.')[0]) == Some(s)
    ensures DbClockFields(d, parts, offset)
         == if h <= 23 && m <= 59 && s <= 60 then Some(Fields(d, h, m, s, offset)) else None
  {
  }

  lemma DateInRange(parts: seq<string>, rest: string, d: Date, zoned: Option<(string, int)>)
    requires |parts| == 3 && ParseI64(parts[0]) == Some(d.year) && ParseI64(parts[1]) == Some(d.month)
    requires ParseI64(parts[2]) == Some(d.day) && StripZone(rest) == zoned
    ensures DbFieldsOf(parts, rest)
         == if 1 <= d.month <= 12 && 1 <= d.day <= 31 && zoned.Some?
            then DbClockFields(d, Split(zoned.value.0, ':'), zoned.value.1) else None
  {
  }

  lemma ReadParts(raw: string, date: string, spaced: bool, rest: string, d: Date, zoned: Option<(string, int)>)
    requires DateChars(date) && Trim(raw) == date + (if spaced then " " else "T") + rest
    requires |Split(date, '-')| == 3 && ParseI64(Split(date, '-')[0]) == Some(d.year)
    requires ParseI64(Split(date, '-')[1]) == Some(d.month) && ParseI64(Split(date, '-')[2]) == Some(d.day)
    requires StripZone(rest) == zoned
    ensures DbFields(raw)
         == if 1 <= d.month <= 12 && 1 <= d.day <= 31 && zoned.Some?
            then DbClockFields(d, Split(zoned.value.0, ':'), zoned.value.1) else None
  {
    HalvesOf(date, spaced, rest, Trim(raw));
    DbFieldsSplit(raw, date, rest);
    DateInRange(Split(date, '-'), rest, d, zoned);
  }

  lemma ReadWritten(raw: string, date: string, clock: string, t: Stamp)
    requires Written(t) && DateChars(date)
    requires Trim(raw) == date + (if t.spaced then " " else "T") + (clock + ZoneText(t.zone))
    requires |Split(date, '-')| == 3 && ParseI64(Split(date, '-')[0]) == Some(t.year)
    requires ParseI64(Split(date, '-')[1]) == Some(t.month) && ParseI64(Split(date, '-')[2]) == Some(t.day)
    requires ClockLike(clock) && clock != []
    requires DbClockFields(Date(t.year, t.month, t.day), Split(clock, ':'), Seconds(t.zone))
          == if t.hour <= 23 && t.minute <= 59 && t.second <= 60 then Some(Spelled(t)) else None
    ensures DbFields(raw) == if InRange(t) then Some(Spelled(t)) else None
  {
    ZoneComesOff(clock, t.zone);
    ReadParts(raw, date, t.spaced, clock + ZoneText(t.zone), Date(t.year, t.month, t.day),
              if ZoneInRange(t.zone) then Some((clock, Seconds(t.zone))) else None);
  }

  // The key store reads a stamp, with whatever space around it, exactly if every number is
  // within its range; a second may be the sixtieth.
  lemma KeyStoreReads(raw: string, t: Stamp)
    requires Written(t) && Trim(raw) == StampText(t)
    ensures DbFields(raw) == if InRange(t) then Some(Spelled(t)) else None
  {
    DateOf(t);
    ClockOf(t, Date(t.year, t.month, t.day), Seconds(t.zone));
    ReadWritten(raw, Padded(t.year, 4) + "-" + Padded(t.month, 2) + "-" + Padded(t.day, 2),
                ClockText(t.hour, t.minute, t.second) + t.fraction, t);
  }

  lemma EndsStay(a: string, b: string)
    requires a != [] && !IsWhitespace(a[0]) && b != [] && !IsWhitespace(b[|b| - 1])
    ensures Trim(a + b) == a + b
  {
    assert (a + b)[|a + b| - 1] == b[|b| - 1];
    TrimKeepsTrimmed(a + b);
  }

  lemma ZoneEnds(clock: string, z: Zone)
    requires ClockLike(clock) && clock != [] && TwoDigits(z)
    ensures var rest := clock + ZoneText(z); rest != [] && !IsWhitespace(rest[|rest| - 1])
  {
    if z.Numeric? {
      NumericChars(z.hours, z.minutes, z.form);
    }
  }

  lemma JoinedStays(date: string, mark: string, clock: string, z: Zone, text: string)
    requires DateChars(date) && ClockLike(clock) && clock != [] && TwoDigits(z)
    requires text == date + mark + (clock + ZoneText(z))
    ensures Trim(text) == text
  {
    ZoneEnds(clock, z);
    EndsStay(date + mark, clock + ZoneText(z));
  }

  // There is no space around a stamp as it is written.
  lemma StampIsTrimmed(t: Stamp)
    requires Written(t)
    ensures Trim(StampText(t)) == StampText(t)
  {
    DateOf(t);
    ClockOf(t, Date(0, 1, 1), 0);
    JoinedStays(Padded(t.year, 4) + "-" + Padded(t.month, 2) + "-" + Padded(t.day, 2), if t.spaced then " " else "T",
                ClockText(t.hour, t.minute, t.second) + t.fraction, t.zone, StampText(t));
  }

  // ---- What the credential loader makes of them ---------------------------------

  lemma LoaderUnzoned(clock: string)
    requires ClockLike(clock) && clock != []
    ensures ClockAndOffset(clock) == Some((clock, 0))
  {
    FindLastNone(clock, '+');
    FindLastNone(clock, '-');
  }

  lemma LoaderZulu(clock: string)
    requires ClockLike(clock) && clock != []
    ensures ClockAndOffset(clock + ['Z']) == Some((clock, 0))
  {
    ZuluClock(clock);
  }

  lemma LoaderPlain(clock: string, zone: string, time: string)
    requires ClockLike(clock) && clock != [] && (zone == "" || zone == "Z") && time == clock + zone
    ensures ClockAndOffset(time) == Some((clock, 0))
  {
    if zone == "" {
      assert time == clock;
      LoaderUnzoned(clock);
    } else {
      assert time == clock + ['Z'];
      LoaderZulu(clock);
    }
  }

  lemma LoaderClock(t: Stamp, f: Fields)
    requires Written(t) && f.hour == t.hour && f.minute == t.minute && f.second == t.second
    ensures var clock := ClockText(t.hour, t.minute, t.second) + t.fraction;
            RfcClockFields(f.date, Split(Split(clock, '.')[0], ':'), f.offset) == Some(f)
  {
    var clock := ClockText(t.hour, t.minute, t.second) + t.fraction;
    PlainClockSplits(t.hour, t.minute, t.second, t.fraction, clock);
    ParsePadded(t.hour, 2);
    ParsePadded(t.minute, 2);
    ParsePadded(t.second, 2);
    RfcClockOf(f.date, Split(Split(clock, '.')[0], ':'), f);
  }

  lemma LoadWritten(text: string, date: string, rest: string, clock: string, f: Fields)
    requires DateChars(date) && text == date + "T" + rest
    requires |Split(date, '-')| == 3 && ParseI64(Split(date, '-')[0]) == Some(f.date.year)
    requires ParseI64(Split(date, '-')[1]) == Some(f.date.month) && ParseI64(Split(date, '-')[2]) == Some(f.date.day)
    requires ClockAndOffset(rest) == Some((clock, f.offset))
    requires RfcClockFields(f.date, Split(Split(clock, '.')[0], ':'), f.offset) == Some(f)
    ensures RfcFields(text) == Some(f)
  {
    assert text == date + ['T'] + rest;
    SplitOnceAt(date, 'T', rest);
    RfcSplit(text, date, rest);
    RfcFieldsOfZoned(f.date, Split(date, '-'), rest, clock, f);
  }

  lemma LoadParts(text: string, date: string, clock: string, zone: string, t: Stamp)
    requires Written(t) && DateChars(date) && ClockLike(clock) && clock != []
    requires (zone == "" || zone == "Z") && Seconds(t.zone) == 0 && text == date + "T" + (clock + zone)
    requires |Split(date, '-')| == 3 && ParseI64(Split(date, '-')[0]) == Some(t.year)
    requires ParseI64(Split(date, '-')[1]) == Some(t.month) && ParseI64(Split(date, '-')[2]) == Some(t.day)
    requires RfcClockFields(Spelled(t).date, Split(Split(clock, '.')[0], ':'), 0) == Some(Spelled(t))
    ensures RfcFields(text) == Some(Spelled(t))
  {
    LoaderPlain(clock, zone, clock + zone);
    LoadWritten(text, date, clock + zone, clock, Spelled(t));
  }

  // The credential loader checks no range: of a stamp in UTC it reads any numbers.
  lemma LoaderReads(t: Stamp)
    requires Written(t) && !t.spaced && t.zone in [Unzoned, Zulu(false)]
    ensures RfcFields(StampText(t)) == Some(Spelled(t))
  {
    DateOf(t);
    FractionClock(t.hour, t.minute, t.second, t.fraction);
    LoaderClock(t, Spelled(t));
    LoadParts(StampText(t), Padded(t.year, 4) + "-" + Padded(t.month, 2) + "-" + Padded(t.day, 2),
              ClockText(t.hour, t.minute, t.second) + t.fraction, ZoneText(t.zone), t);
  }

  // Of these stamps the two therefore read the same fields exactly if all are in range.
  lemma SameFieldsInRange(t: Stamp)
    requires Written(t) && !t.spaced && t.zone in [Unzoned, Zulu(false)]
    ensures RfcFields(StampText(t)) == DbFields(StampText(t)) <==> InRange(t)
  {
    StampIsTrimmed(t);
    KeyStoreReads(StampText(t), t);
    LoaderReads(t);
  }
}
