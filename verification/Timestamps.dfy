// Printing an expiry and the two hand-written parsers that read one back.
module Timestamps {
  import opened Wrappers
  import opened Text
  import opened CivilCalendar

  const U64_MODULUS := 0x1_0000_0000_0000_0000

  // ---- grok_cli.rs: the printer -----------------------------------------------

  function DateText(d: Date): string {
    Padded(d.year, 4) + "-" + Padded(d.month, 2) + "-" + Padded(d.day, 2)
  }

  function ClockText(hour: nat, minute: nat, second: nat): string {
    Padded(hour, 2) + ":" + Padded(minute, 2) + ":" + Padded(second, 2)
  }

  function Rfc3339FromEpoch(epoch: int): string {
    var seconds := epoch % 86_400;
    DateText(CivilFromDaysGrok(epoch / 86_400)) + "T"
    + ClockText(seconds / 3600, seconds % 3600 / 60, seconds % 60) + ".000Z"
  }

  // ---- credentials.rs: the first parser ---------------------------------------

  function ParseOffset(offset: string): Option<int> {
    var parts :- SplitOnce(offset, ':');
    var hours :- ParseI64(parts.0);
    var minutes :- ParseI64(parts.1);
    Some(hours * 3600 + minutes * 60)
  }

  predicate IsZulu(c: char) {
    c == 'Z'
  }

  // The clock text and the offset east of UTC.
  function ClockAndOffset(rest: string): Option<(string, int)> {
    var time := TrimEnd(rest, IsZulu);
    ZonedBy(time, RSplitOnce(time, '+'), RSplitOnce(time, '-'))
  }

  // A plus sign comes first; a minus sign counts only before something with a colon.
  function ZonedBy(time: string, plus: Option<(string, string)>, minus: Option<(string, string)>)
    : Option<(string, int)>
  {
    if plus.Some? then
      var offset :- ParseOffset(plus.value.1);
      Some((plus.value.0, offset))
    else if minus.Some? && ':' in minus.value.1 then
      var offset :- ParseOffset(minus.value.1);
      Some((minus.value.0, -offset))
    else
      Some((time, 0))
  }

  // The numbers a timestamp spells, not yet checked or added up.
  datatype Fields = Fields(date: Date, hour: int, minute: int, second: int, offset: int)

  function ParseRfc3339Seconds(value: string): Option<int> {
    var fields :- RfcFields(value);
    Some(RfcStamp(fields))
  }

  function RfcStamp(f: Fields): int {
    DaysFromCivilCredentials(f.date.year, f.date.month, f.date.day) * 86_400
    + f.hour * 3600 + f.minute * 60 + f.second - f.offset
  }

  function RfcFields(value: string): Option<Fields> {
    var halves :- SplitOnce(value, 'T');
    RfcFieldsOf(Split(halves.0, '-'), halves.1)
  }

  function RfcFieldsOf(dateParts: seq<string>, rest: string): Option<Fields>
    requires dateParts != []
  {
    var year :- ParseI64(dateParts[0]);
    var month :- if |dateParts| > 1 then ParseI64(dateParts[1]) else None;
    var day :- if |dateParts| > 2 then ParseI64(dateParts[2]) else None;
    var clock :- ClockAndOffset(rest);
    RfcClockFields(Date(year, month, day), Split(Split(clock.0, '.')[0], ':'), clock.1)
  }

  function RfcClockFields(date: Date, timeParts: seq<string>, offset: int): Option<Fields>
    requires timeParts != []
  {
    var hour :- ParseI64(timeParts[0]);
    var minute :- if |timeParts| > 1 then ParseI64(timeParts[1]) else None;
    var second :- ParseI64(if |timeParts| > 2 then timeParts[2] else "0");
    Some(Fields(date, hour, minute, second, offset))
  }

  // ---- repos.rs: the second parser --------------------------------------------

  function ParseZoneOffset(zone: string): Option<int> {
    if zone == [] || (zone[0] != '+' && zone[0] != '-') then None
    else
      var sign := if zone[0] == '+' then 1 else -1;
      var digits := Without(zone[1..], ':');
      var hours :- if |digits| == 2 || |digits| == 4 then ParseI64(digits[..2]) else None;
      var minutes :- if |digits| == 4 then ParseI64(digits[2..]) else Some(0);
      if hours > 23 || minutes > 59 then None else Some(sign * (hours * 3600 + minutes * 60))
  }

  function Without(s: string, c: char): string {
    if s == [] then [] else (if s[0] == c then [] else [s[0]]) + Without(s[1..], c)
  }

  // Split at the first 'T' or space.
  function SplitDateTime(text: string): Option<(string, string)> {
    var i := if Find(text, 'T') <= Find(text, ' ') then Find(text, 'T') else Find(text, ' ');
    if i < |text| then Some((text[..i], text[i + 1..])) else None
  }

  function StripZone(time: string): Option<(string, int)> {
    if time != [] && (time[|time| - 1] == 'Z' || time[|time| - 1] == 'z') then
      Some((time[..|time| - 1], 0))
    else
      var at := if FindLast(time, '+') >= FindLast(time, '-') then FindLast(time, '+') else FindLast(time, '-');
      if at >= 0 then
        var offset :- ParseZoneOffset(time[at..]);
        Some((time[..at], offset))
      else
        Some((time, 0))
  }

  function ParseDbTimestamp(raw: string): Option<nat> {
    var f :- DbFields(raw);
    if 0 <= DbStamp(f) < U64_MODULUS then Some(DbStamp(f)) else None
  }

  function DbStamp(f: Fields): int {
    DaysFromCivilRepos(f.date.year, f.date.month, f.date.day) * 86_400
    + f.hour * 3600 + f.minute * 60 + f.second - f.offset
  }

  // The numbers of a timestamp that passes the range checks.
  function DbFields(raw: string): Option<Fields> {
    var halves :- SplitDateTime(Trim(raw));
    DbFieldsOf(Split(halves.0, '-'), halves.1)
  }

  function DbFieldsOf(dateParts: seq<string>, rest: string): Option<Fields>
    requires dateParts != []
  {
    var year :- ParseI64(dateParts[0]);
    var month :- if |dateParts| > 1 then ParseI64(dateParts[1]) else None;
    var day :- if |dateParts| > 2 then ParseI64(dateParts[2]) else None;
    if |dateParts| > 3 || !(1 <= month <= 12) || !(1 <= day <= 31) then None
    else
      var zoned :- StripZone(rest);
      DbClockFields(Date(year, month, day), Split(zoned.0, ':'), zoned.1)
  }

  function DbClockFields(date: Date, clockParts: seq<string>, offset: int): Option<Fields>
    requires clockParts != []
  {
    var hour :- ParseI64(clockParts[0]);
    var minute :- if |clockParts| > 1 then ParseI64(clockParts[1]) else None;
    var second :- if |clockParts| > 2 then ParseI64(Split(clockParts[2], '.')[0]) else None;
    if |clockParts| > 3 || hour > 23 || minute > 59 || second > 60 then None
    else Some(Fields(date, hour, minute, second, offset))
  }

  // ---- The printed pieces -----------------------------------------------------

  lemma YearInRange(epoch: int)
    requires -I64_LIMIT <= epoch < I64_LIMIT
    ensures CivilFromDaysGrok(epoch / 86_400).year < I64_LIMIT
  {
    var days := epoch / 86_400;
    var d := CivilFromDaysGrok(days);
    CivilCopiesAgree(days);
    CivilIsDate(days);
    DayCountClosed(d);
    if d.year > 0 {
      YearAtLeast(MarchYear(d));
    }
  }

  lemma YearAtLeast(y: int)
    requires y >= 0
    ensures YearStart(y) >= 365 * y
  {
    assert y / 4 >= y / 100;
  }

  // Three runs of digits joined by dashes.
  lemma DashedSplits(y: string, m: string, d: string)
    requires AllDigits(y) && AllDigits(m) && AllDigits(d)
    ensures Split(y + "-" + m + "-" + d, '-') == [y, m, d]
  {
    Concat5(y, "-", m, "-", d);
    DigitsAvoid(y, '-');
    DigitsAvoid(m, '-');
    DigitsAvoid(d, '-');
    SplitThree(y, m, d, '-');
  }

  lemma Concat5(a: string, b: string, c: string, d: string, e: string)
    ensures a + b + c + d + e == a + b + (c + d + e)
  {
  }

  lemma SignedSplits(digits: string, m: string, d: string)
    ensures Split("-" + digits + "-" + m + "-" + d, '-')[0] == []
  {
    var rest := digits + ("-" + m + "-" + d);
    assert "-" + digits + "-" + m + "-" + d == [] + ['-'] + rest;
    SplitAt([], '-', rest);
  }

  // Characters of a printed date.
  predicate DateChars(s: string) {
    s != [] && forall i :: 0 <= i < |s| ==> IsDigit(s[i]) || s[i] == '-'
  }

  lemma DateSplits(d: Date)
    requires IsDate(d)
    ensures d.year >= 0 ==> Split(DateText(d), '-') == [Padded(d.year, 4), Padded(d.month, 2), Padded(d.day, 2)]
    ensures d.year < 0 ==> Split(DateText(d), '-')[0] == []
  {
    if d.year >= 0 {
      PaddedDigits(d.year, 4);
      PaddedDigits(d.month, 2);
      PaddedDigits(d.day, 2);
      DashedSplits(Padded(d.year, 4), Padded(d.month, 2), Padded(d.day, 2));
    } else {
      var digits := Zeros(3 - |Decimal(-d.year)|) + Decimal(-d.year);
      assert Padded(d.year, 4) == "-" + digits;
      SignedSplits(digits, Padded(d.month, 2), Padded(d.day, 2));
    }
  }

  lemma DateIsDateChars(d: Date)
    requires IsDate(d)
    ensures DateChars(DateText(d))
  {
    PaddedDigits(d.month, 2);
    PaddedDigits(d.day, 2);
  }

  // The three numbers of a clock, the last with a tail of its own.
  lemma ClockSplits(h: nat, m: nat, s: nat, tail: string)
    requires ':' !in tail
    ensures Split(ClockText(h, m, s) + tail, ':') == [Padded(h, 2), Padded(m, 2), Padded(s, 2) + tail]
  {
    PaddedDigits(h, 2);
    PaddedDigits(m, 2);
    PaddedDigits(s, 2);
    assert ClockText(h, m, s) + tail == Padded(h, 2) + [':'] + (Padded(m, 2) + [':'] + (Padded(s, 2) + tail));
    SplitThree(Padded(h, 2), Padded(m, 2), Padded(s, 2) + tail, ':');
  }

  lemma ClockChars(h: nat, m: nat, s: nat)
    ensures var c := ClockText(h, m, s); forall i :: 0 <= i < |c| ==> IsDigit(c[i]) || c[i] == ':'
  {
    PaddedDigits(h, 2);
    PaddedDigits(m, 2);
    PaddedDigits(s, 2);
  }

  lemma FractionSplits(clock: string)
    requires '.' !in clock
    ensures Split(clock + ".000", '.')[0] == clock
  {
    assert clock + ".000" == clock + ['.'] + "000";
    SplitAt(clock, '.', "000");
  }

  lemma SecondsAddUp(epoch: int)
    ensures var s := epoch % 86_400;
            epoch / 86_400 * 86_400 + s / 3600 * 3600 + s % 3600 / 60 * 60 + s % 60 == epoch
  {
  }

  lemma ZuluDropped(time: string)
    requires time != [] && time[|time| - 1] != 'Z'
    ensures TrimEnd(time + ['Z'], IsZulu) == time
  {
    assert (time + ['Z'])[..|time|] == time;
    assert TrimEnd(time, IsZulu) == time;
  }

  lemma ZuluClock(time: string)
    requires time != [] && time[|time| - 1] != 'Z' && '+' !in time && '-' !in time
    ensures ClockAndOffset(time + ['Z']) == Some((time, 0))
  {
    ZuluDropped(time);
    FindLastNone(time, '+');
    FindLastNone(time, '-');
  }

  lemma ZuluStripped(time: string)
    ensures StripZone(time + ['Z']) == Some((time, 0))
  {
    assert (time + ['Z'])[..|time|] == time;
  }

  // The printed clock is in UTC for both parsers.
  lemma ClockHasNoZone(c: string)
    requires forall i :: 0 <= i < |c| ==> IsDigit(c[i]) || c[i] == ':'
    ensures ClockAndOffset(c + ".000Z") == Some((c + ".000", 0))
    ensures StripZone(c + ".000Z") == Some((c + ".000", 0))
  {
    var time := c + ".000";
    assert c + ".000Z" == time + ['Z'];
    ZuluClock(time);
    ZuluStripped(time);
  }

  lemma RfcClockSplits(h: nat, m: nat, s: nat)
    ensures var c := ClockText(h, m, s);
            && ClockAndOffset(c + ".000Z") == Some((c + ".000", 0))
            && Split(Split(c + ".000", '.')[0], ':') == [Padded(h, 2), Padded(m, 2), Padded(s, 2)]
  {
    var c := ClockText(h, m, s);
    ClockChars(h, m, s);
    ClockHasNoZone(c);
    FractionSplits(c);
    ClockSplits(h, m, s, []);
    assert c + [] == c;
    assert Padded(s, 2) + [] == Padded(s, 2);
  }

  lemma DbClockSplits(h: nat, m: nat, s: nat)
    ensures var c := ClockText(h, m, s);
            && StripZone(c + ".000Z") == Some((c + ".000", 0))
            && var parts := Split(c + ".000", ':');
            && |parts| == 3 && parts[0] == Padded(h, 2) && parts[1] == Padded(m, 2)
            && Split(parts[2], '.')[0] == Padded(s, 2)
  {
    ClockChars(h, m, s);
    ClockHasNoZone(ClockText(h, m, s));
    ClockSplits(h, m, s, ".000");
    PaddedDigits(s, 2);
    FractionSplits(Padded(s, 2));
  }

  // Both parsers split a printed timestamp where the printer joined it.
  lemma HalvesBack(date: string, rest: string)
    requires DateChars(date)
    requires rest != [] && rest[|rest| - 1] == 'Z'
    ensures SplitOnce(date + "T" + rest, 'T') == Some((date, rest))
    ensures SplitDateTime(Trim(date + "T" + rest)) == Some((date, rest))
  {
    var text := date + ['T'] + rest;
    SplitOnceAt(date, 'T', rest);
    FindAt(date, 'T', rest);
    TrimKeepsTrimmed(text);
    FindBeyond(date, 'T', rest, ' ');
    assert text[..|date|] == date && text[|date| + 1..] == rest;
  }

  lemma {:induction false} FindBeyond(a: string, c: char, b: string, e: char)
    requires e !in a && e != c
    ensures Find(a + [c] + b, e) > |a|
  {
    if a == [] {
      assert [] + [c] + b == [c] + b;
    } else {
      assert (a + [c] + b)[0] == a[0] && (a + [c] + b)[1..] == a[1..] + [c] + b;
      FindBeyond(a[1..], c, b, e);
    }
  }

  // ---- Round trips ------------------------------------------------------------

  lemma RfcClockBack(d: Date, h: nat, m: nat, s: nat)
    requires h < 24 && m < 60 && s < 60
    ensures var c := ClockText(h, m, s);
            && ClockAndOffset(c + ".000Z") == Some((c + ".000", 0))
            && RfcClockFields(d, Split(Split(c + ".000", '.')[0], ':'), 0) == Some(Fields(d, h, m, s, 0))
  {
    ParsePadded(h, 2);
    ParsePadded(m, 2);
    ParsePadded(s, 2);
    RfcClockSplits(h, m, s);
  }

  lemma DbClockBack(d: Date, h: nat, m: nat, s: nat)
    requires h < 24 && m < 60 && s < 60
    ensures var c := ClockText(h, m, s);
            && StripZone(c + ".000Z") == Some((c + ".000", 0))
            && DbClockFields(d, Split(c + ".000", ':'), 0) == Some(Fields(d, h, m, s, 0))
  {
    ParsePadded(h, 2);
    ParsePadded(m, 2);
    ParsePadded(s, 2);
    DbClockSplits(h, m, s);
  }

  lemma DateReads(d: Date)
    requires IsDate(d) && 0 <= d.year < I64_LIMIT
    ensures ParseI64(Padded(d.year, 4)) == Some(d.year)
    ensures ParseI64(Padded(d.month, 2)) == Some(d.month)
    ensures ParseI64(Padded(d.day, 2)) == Some(d.day)
  {
    ParsePadded(d.year, 4);
    ParsePadded(d.month, 2);
    ParsePadded(d.day, 2);
  }

  lemma RfcFieldsBack(d: Date, h: nat, m: nat, s: nat)
    requires IsDate(d) && d.year < I64_LIMIT && h < 24 && m < 60 && s < 60
    ensures RfcFields(DateText(d) + "T" + (ClockText(h, m, s) + ".000Z"))
         == if d.year >= 0 then Some(Fields(d, h, m, s, 0)) else None
  {
    DateIsDateChars(d);
    HalvesBack(DateText(d), ClockText(h, m, s) + ".000Z");
    DateSplits(d);
    if d.year >= 0 {
      DateReads(d);
      RfcClockBack(d, h, m, s);
    }
  }

  lemma DbFieldsSplit(text: string, date: string, rest: string)
    requires SplitDateTime(Trim(text)) == Some((date, rest))
    ensures DbFields(text) == DbFieldsOf(Split(date, '-'), rest)
  {
  }

  lemma DbFieldsRead(d: Date, y: string, m: string, day: string, rest: string, clock: string)
    requires IsDate(d)
    requires ParseI64(y) == Some(d.year) && ParseI64(m) == Some(d.month) && ParseI64(day) == Some(d.day)
    requires StripZone(rest) == Some((clock, 0))
    ensures DbFieldsOf([y, m, day], rest) == DbClockFields(d, Split(clock, ':'), 0)
  {
  }

  lemma DbFieldsBack(d: Date, h: nat, m: nat, s: nat)
    requires IsDate(d) && d.year < I64_LIMIT && h < 24 && m < 60 && s < 60
    ensures DbFields(DateText(d) + "T" + (ClockText(h, m, s) + ".000Z"))
         == if d.year >= 0 then Some(Fields(d, h, m, s, 0)) else None
  {
    var rest := ClockText(h, m, s) + ".000Z";
    DateIsDateChars(d);
    HalvesBack(DateText(d), rest);
    DbFieldsSplit(DateText(d) + "T" + rest, DateText(d), rest);
    DateSplits(d);
    if d.year >= 0 {
      DateReads(d);
      DbClockBack(d, h, m, s);
      DbFieldsRead(d, Padded(d.year, 4), Padded(d.month, 2), Padded(d.day, 2), rest, ClockText(h, m, s) + ".000");
    }
  }

  // The first second of year 0, where printed years stop being negative.
  const YEAR_ZERO := -62_167_219_200

  lemma YearOfDate(d: Date, days: int)
    requires IsDate(d) && DaysFromCivil(d.year, d.month, d.day) == days
    ensures d.year >= 0 <==> days >= -719_528
  {
    DayCountOrdersDates(d, Date(0, 1, 1));
    DayCountClosed(Date(0, 1, 1));
  }

  lemma YearOfDays(days: int)
    ensures CivilFromDaysGrok(days).year >= 0 <==> days >= -719_528
  {
    CivilCopiesAgree(days);
    CivilIsDate(days);
    YearOfDate(CivilFromDays(days), days);
  }

  // The two parsers add up the same fields to the same moment exactly for months from
  // -9 to 14; the key store only ever gets to months 1 to 12.
  lemma StampsAgree(f: Fields)
    ensures RfcStamp(f) == DaysFromCivil(f.date.year, f.date.month, f.date.day) * 86_400
                           + f.hour * 3600 + f.minute * 60 + f.second - f.offset
    ensures DbStamp(f) == RfcStamp(f) <==> -9 <= f.date.month <= 14
  {
    DayCountCopiesAgree(f.date.year, f.date.month, f.date.day);
  }

  // What the printer prints.
  lemma PrintedParts(epoch: int) returns (d: Date, h: nat, m: nat, s: nat)
    requires -I64_LIMIT <= epoch < I64_LIMIT
    ensures Rfc3339FromEpoch(epoch) == DateText(d) + "T" + (ClockText(h, m, s) + ".000Z")
    ensures IsDate(d) && d.year < I64_LIMIT && h < 24 && m < 60 && s < 60
    ensures RfcStamp(Fields(d, h, m, s, 0)) == DbStamp(Fields(d, h, m, s, 0)) == epoch
    ensures d.year >= 0 <==> epoch >= YEAR_ZERO
  {
    var days := epoch / 86_400;
    d := CivilFromDaysGrok(days);
    h, m, s := epoch % 86_400 / 3600, epoch % 86_400 % 3600 / 60, epoch % 86_400 % 60;
    SecondsAddUp(epoch);
    CivilCopiesAgree(days);
    CivilIsDate(days);
    StampsAgree(Fields(d, h, m, s, 0));
    YearInRange(epoch);
    YearOfDays(days);
    Concat4(DateText(d), "T", ClockText(h, m, s), ".000Z");
  }

  lemma Concat4(a: string, b: string, c: string, d: string)
    ensures a + b + c + d == a + b + (c + d)
  {
  }

  lemma RfcAddsUp(text: string, f: Option<Fields>)
    requires RfcFields(text) == f
    ensures ParseRfc3339Seconds(text) == if f.Some? then Some(RfcStamp(f.value)) else None
  {
  }

  lemma DbAddsUp(text: string, f: Option<Fields>)
    requires DbFields(text) == f
    ensures ParseDbTimestamp(text)
         == if f.Some? && 0 <= DbStamp(f.value) < U64_MODULUS then Some(DbStamp(f.value)) else None
  {
  }

  lemma {:induction false} DecimalLength(n: nat)
    ensures n < 10 ==> |Decimal(n)| == 1
    ensures n < 100 ==> |Decimal(n)| <= 2
    ensures n < 1_000 ==> |Decimal(n)| <= 3
    ensures n < 10_000 ==> |Decimal(n)| <= 4
  {
    if n >= 10 {
      DecimalLength(n / 10);
    }
  }

  lemma DatePrints(d: Date)
    requires IsDate(d) && 0 <= d.year <= 9999
    ensures var t := DateText(d); |t| == 10 && t[4] == t[7] == '-'
  {
    DecimalLength(d.year);
    DecimalLength(d.month);
    DecimalLength(d.day);
    PaddedLength(d.year, 4);
    PaddedLength(d.month, 2);
    PaddedLength(d.day, 2);
  }

  lemma ClockPrints(h: nat, m: nat, s: nat)
    requires h < 24 && m < 60 && s < 60
    ensures var t := ClockText(h, m, s); |t| == 8 && t[2] == t[5] == ':'
  {
    DecimalLength(h);
    DecimalLength(m);
    DecimalLength(s);
    PaddedLength(h, 2);
    PaddedLength(m, 2);
    PaddedLength(s, 2);
  }

  // Up to the year 9999 a printed expiry is 24 characters long, its parts each in its place.
  lemma PrintedShape(epoch: int)
    requires YEAR_ZERO <= epoch < I64_LIMIT && CivilFromDaysGrok(epoch / 86_400).year <= 9999
    ensures var t := Rfc3339FromEpoch(epoch);
            && |t| == 24 && t[4] == t[7] == '-' && t[10] == 'T' && t[13] == t[16] == ':' && t[19..] == ".000Z"
  {
    var (days, seconds) := (epoch / 86_400, epoch % 86_400);
    var (d, c) := (CivilFromDaysGrok(days), ClockText(seconds / 3600, seconds % 3600 / 60, seconds % 60));
    CivilCopiesAgree(days);
    CivilIsDate(days);
    YearOfDays(days);
    DatePrints(d);
    ClockPrints(seconds / 3600, seconds % 3600 / 60, seconds % 60);
    PartsInPlace(DateText(d), c, Rfc3339FromEpoch(epoch));
  }

  lemma PartsInPlace(date: string, clock: string, text: string)
    requires |date| == 10 && date[4] == date[7] == '-' && |clock| == 8 && clock[2] == clock[5] == ':'
    requires text == date + "T" + clock + ".000Z"
    ensures |text| == 24 && text[4] == text[7] == '-' && text[10] == 'T' && text[13] == text[16] == ':'
    ensures text[19..] == ".000Z"
  {
    assert text == (date + "T" + clock) + ".000Z" && |date + "T" + clock| == 19;
  }

  // The credential loader reads back a printed expiry exactly when its year is not
  // negative.
  lemma RfcRoundTrip(epoch: int)
    requires -I64_LIMIT <= epoch < I64_LIMIT
    ensures ParseRfc3339Seconds(Rfc3339FromEpoch(epoch)) == if epoch >= YEAR_ZERO then Some(epoch) else None
  {
    var d, h, m, s := PrintedParts(epoch);
    RfcFieldsBack(d, h, m, s);
    RfcAddsUp(Rfc3339FromEpoch(epoch), if d.year >= 0 then Some(Fields(d, h, m, s, 0)) else None);
  }

  // The key store reads it back exactly when it is not before 1970.
  lemma DbRoundTrip(epoch: int)
    requires -I64_LIMIT <= epoch < I64_LIMIT
    ensures ParseDbTimestamp(Rfc3339FromEpoch(epoch)) == if epoch >= 0 then Some(epoch) else None
  {
    var d, h, m, s := PrintedParts(epoch);
    DbFieldsBack(d, h, m, s);
    DbAddsUp(Rfc3339FromEpoch(epoch), if d.year >= 0 then Some(Fields(d, h, m, s, 0)) else None);
  }

  // ---- Stamps without seconds ---------------------------------------------------

  lemma ShortClock(hour: string, minute: string, c: string)
    requires AllDigits(hour) && AllDigits(minute) && minute != [] && c == hour + ":" + minute
    ensures c != [] && ClockLike(c) && Split(c, ':') == [hour, minute] && Split(c, '.')[0] == c
  {
    assert c == hour + [':'] + minute;
    SplitAt(hour, ':', minute);
    SplitNone(minute, ':');
    SplitNone(c, '.');
  }

  lemma ZuluEnds(c: string)
    requires c != [] && ClockLike(c)
    ensures ClockAndOffset(c + "Z") == Some((c, 0)) && StripZone(c + "Z") == Some((c, 0))
  {
    assert c + "Z" == c + ['Z'];
    ZuluClock(c);
    ZuluStripped(c);
  }

  lemma ShortFields(d: Date, hour: string, minute: string, h: nat, m: nat)
    requires ParseI64(hour) == Some(h) && ParseI64(minute) == Some(m) && ParseI64("0") == Some(0)
    ensures RfcClockFields(d, [hour, minute], 0) == Some(Fields(d, h, m, 0, 0))
    ensures DbClockFields(d, [hour, minute], 0) == None
  {
  }

  lemma ShortStamp(d: Date, date: string, hour: string, minute: string, h: nat, m: nat, rest: string, text: string)
    requires IsDate(d) && 0 <= d.year < I64_LIMIT && date == DateText(d)
    requires AllDigits(hour) && AllDigits(minute) && minute != []
    requires ParseI64(hour) == Some(h) && ParseI64(minute) == Some(m) && ParseI64("0") == Some(0)
    requires rest == hour + ":" + minute + "Z" && text == date + "T" + rest
    ensures RfcFields(text) == Some(Fields(d, h, m, 0, 0)) && DbFields(text) == None
  {
    DateIsDateChars(d);
    HalvesBack(date, rest);
    RfcSplit(text, date, rest);
    DbFieldsSplit(text, date, rest);
    DatePartsRead(d, Split(date, '-'));
    ShortClock(hour, minute, hour + ":" + minute);
    ZuluEnds(hour + ":" + minute);
    ShortFields(d, hour, minute, h, m);
    ShortFieldsOf(d, Split(date, '-'), rest, hour + ":" + minute, Fields(d, h, m, 0, 0));
  }

  lemma ShortFieldsOf(d: Date, parts: seq<string>, rest: string, clock: string, f: Fields)
    requires IsDate(d) && |parts| == 3 && ParseI64(parts[0]) == Some(d.year) && ParseI64(parts[1]) == Some(d.month)
    requires ParseI64(parts[2]) == Some(d.day) && Split(clock, '.')[0] == clock
    requires ClockAndOffset(rest) == Some((clock, 0)) && StripZone(rest) == Some((clock, 0))
    requires RfcClockFields(d, Split(clock, ':'), 0) == Some(f) && DbClockFields(d, Split(clock, ':'), 0) == None
    ensures RfcFieldsOf(parts, rest) == Some(f) && DbFieldsOf(parts, rest) == None
  {
  }

  lemma ZeroReads()
    ensures ParseI64("0") == Some(0)
  {
    ParsePadded(0, 1);
    assert Padded(0, 1) == "0";
  }

  // A stamp that stops at the minute: the credential loader reads it as second 0, the key
  // store refuses it.
  lemma SecondsMayLack(d: Date, h: nat, m: nat)
    requires IsDate(d) && 0 <= d.year < I64_LIMIT && h < 24 && m < 60
    ensures var text := DateText(d) + "T" + (Padded(h, 2) + ":" + Padded(m, 2) + "Z");
            && ParseRfc3339Seconds(text) == Some(RfcStamp(Fields(d, h, m, 0, 0)))
            && ParseDbTimestamp(text) == None
  {
    var rest := Padded(h, 2) + ":" + Padded(m, 2) + "Z";
    var text := DateText(d) + "T" + rest;
    PaddedDigits(h, 2);
    PaddedDigits(m, 2);
    ParsePadded(h, 2);
    ParsePadded(m, 2);
    ZeroReads();
    ShortStamp(d, DateText(d), Padded(h, 2), Padded(m, 2), h, m, rest, text);
    RfcAddsUp(text, Some(Fields(d, h, m, 0, 0)));
    DbAddsUp(text, None);
  }

  // ---- Offsets ----------------------------------------------------------------

  // Two digits of a zone and their value.
  predicate Spells(s: string, n: nat) {
    |s| == 2 && AllDigits(s) && ParseI64(s) == Some(n)
  }

  // East of UTC or west of it.
  function OffsetSeconds(sign: char, hours: nat, minutes: nat): int {
    if sign == '+' then hours * 3600 + minutes * 60 else -(hours * 3600 + minutes * 60)
  }

  lemma OffsetOf(h: string, m: string, hours: nat, minutes: nat)
    requires ':' !in h && ParseI64(h) == Some(hours) && ParseI64(m) == Some(minutes)
    ensures ParseOffset(h + ":" + m) == Some(hours * 3600 + minutes * 60)
  {
    SplitOnceAt(h, ':', m);
    assert h + ":" + m == h + [':'] + m;
  }

  lemma {:induction false} WithoutNone(s: string, c: char)
    requires c !in s
    ensures Without(s, c) == s
  {
    if s != [] {
      WithoutNone(s[1..], c);
    }
  }

  lemma {:induction false} WithoutConcat(a: string, b: string, c: char)
    ensures Without(a + b, c) == Without(a, c) + Without(b, c)
  {
    if a == [] {
      assert a + b == b;
    } else {
      assert (a + b)[1..] == a[1..] + b;
      WithoutConcat(a[1..], b, c);
    }
  }

  lemma WithoutFirst(s: string, c: char)
    ensures Without([c] + s, c) == Without(s, c)
  {
    assert ([c] + s)[1..] == s;
  }

  lemma ZoneWithoutColon(h: string, m: string)
    requires ':' !in h && ':' !in m
    ensures Without(h + ":" + m, ':') == h + m
  {
    assert h + ":" + m == h + ([':'] + m);
    WithoutConcat(h, [':'] + m, ':');
    WithoutFirst(m, ':');
    WithoutNone(h, ':');
    WithoutNone(m, ':');
  }

  lemma ZoneDigits(zone: string, h: string, m: string, hours: nat, minutes: nat)
    requires zone != [] && (zone[0] == '+' || zone[0] == '-') && Without(zone[1..], ':') == h + m
    requires |h| == 2 && |m| == 2 && hours < 24 && minutes < 60
    requires ParseI64(h) == Some(hours) && ParseI64(m) == Some(minutes)
    ensures ParseZoneOffset(zone) == Some(OffsetSeconds(zone[0], hours, minutes))
  {
    assert (h + m)[..2] == h && (h + m)[2..] == m;
  }

  lemma ZoneReads(sign: char, h: string, m: string, hours: nat, minutes: nat, z: string)
    requires (sign == '+' || sign == '-') && Spells(h, hours) && Spells(m, minutes) && hours < 24 && minutes < 60
    requires z == h + ":" + m
    ensures ParseZoneOffset([sign] + z) == Some(OffsetSeconds(sign, hours, minutes))
  {
    DigitsAvoid(h, ':');
    DigitsAvoid(m, ':');
    ZoneWithoutColon(h, m);
    assert ([sign] + z)[1..] == z;
    ZoneDigits([sign] + z, h, m, hours, minutes);
  }

  // What both parsers need to know to cut a clock from the numeric zone behind it.
  predicate Cuts(time: string, c: string, z: string, east: bool) {
    && TrimEnd(time, IsZulu) == time
    && RSplitOnce(time, if east then '+' else '-') == Some((c, z))
    && (!east ==> RSplitOnce(time, '+').None?)
  }

  predicate Strips(time: string, c: string, zone: string) {
    && |c| < |time| && time[|time| - 1] != 'Z' && time[|time| - 1] != 'z'
    && (if FindLast(time, '+') >= FindLast(time, '-') then FindLast(time, '+') else FindLast(time, '-')) == |c|
    && time[|c|..] == zone && time[..|c|] == c
  }

  predicate ClockLike(c: string) {
    forall i :: 0 <= i < |c| ==> IsDigit(c[i]) || c[i] == ':' || c[i] == '.'
  }

  lemma ZoneCuts(c: string, sign: char, z: string, time: string)
    requires ClockLike(c) && ClockLike(z) && z != [] && IsDigit(z[|z| - 1])
    requires (sign == '+' || sign == '-') && time == c + [sign] + z
    ensures Cuts(time, c, z, sign == '+') && Strips(time, c, [sign] + z)
  {
    var other := if sign == '+' then '-' else '+';
    assert time[|time| - 1] == z[|z| - 1];
    FindLastAt(c, sign, z);
    FindLastNone(time, other);
    assert time[..|c|] == c && time[|c| + 1..] == z && time[|c|..] == [sign] + z;
  }

  lemma ClockOfZone(time: string, c: string, z: string, plus: Option<(string, string)>, minus: Option<(string, string)>,
                    east: bool, size: int)
    requires ParseOffset(z) == Some(size) && ':' in z
    requires if east then plus == Some((c, z)) else plus.None? && minus == Some((c, z))
    ensures ZonedBy(time, plus, minus) == Some((c, if east then size else -size))
  {
  }

  lemma ClockOfCut(time: string, c: string, z: string, east: bool, size: int)
    requires Cuts(time, c, z, east) && ':' in z && ParseOffset(z) == Some(size)
    ensures ClockAndOffset(time) == Some((c, if east then size else -size))
  {
    ClockOfZone(time, c, z, RSplitOnce(time, '+'), RSplitOnce(time, '-'), east, size);
  }

  lemma ClockOfStripped(time: string, c: string, zone: string, offset: int)
    requires Strips(time, c, zone) && ParseZoneOffset(zone) == Some(offset)
    ensures StripZone(time) == Some((c, offset))
  {
  }

  lemma ZoneChars(h: string, m: string, z: string)
    requires AllDigits(h) && AllDigits(m) && m != [] && z == h + ":" + m
    ensures ClockLike(z) && ':' in z && IsDigit(z[|z| - 1])
  {
    assert z[|h|] == ':';
  }

  lemma ZonedClock(c: string, sign: char, z: string, time: string, size: int, offset: int)
    requires ClockLike(c) && ClockLike(z) && ':' in z && IsDigit(z[|z| - 1])
    requires (sign == '+' || sign == '-') && time == c + [sign] + z
    requires offset == (if sign == '+' then size else -size)
    requires ParseOffset(z) == Some(size) && ParseZoneOffset([sign] + z) == Some(offset)
    ensures ClockAndOffset(time) == Some((c, offset)) && StripZone(time) == Some((c, offset))
  {
    ZoneCuts(c, sign, z, time);
    ClockOfCut(time, c, z, sign == '+', size);
    ClockOfStripped(time, c, [sign] + z, offset);
  }

  lemma ColonZone(sign: char, h: string, m: string, hours: nat, minutes: nat, z: string)
    requires (sign == '+' || sign == '-') && Spells(h, hours) && Spells(m, minutes) && hours < 24 && minutes < 60
    requires z == h + ":" + m
    ensures ClockLike(z) && ':' in z && IsDigit(z[|z| - 1])
    ensures ParseOffset(z) == Some(hours * 3600 + minutes * 60)
    ensures ParseZoneOffset([sign] + z) == Some(OffsetSeconds(sign, hours, minutes))
  {
    ZoneChars(h, m, z);
    DigitsAvoid(h, ':');
    OffsetOf(h, m, hours, minutes);
    ZoneReads(sign, h, m, hours, minutes, z);
  }

  lemma ClockWithZone(c: string, sign: char, h: string, m: string, hours: nat, minutes: nat, z: string, time: string)
    requires (sign == '+' || sign == '-') && Spells(h, hours) && Spells(m, minutes) && hours < 24 && minutes < 60
    requires ClockLike(c) && z == h + ":" + m && time == c + [sign] + z
    ensures ClockAndOffset(time) == Some((c, OffsetSeconds(sign, hours, minutes)))
    ensures StripZone(time) == Some((c, OffsetSeconds(sign, hours, minutes)))
  {
    ColonZone(sign, h, m, hours, minutes, z);
    ZonedClock(c, sign, z, time, hours * 3600 + minutes * 60, OffsetSeconds(sign, hours, minutes));
  }

  // Both parsers find the halves of a stamp that ends in a digit.
  lemma HalvesOfZoned(date: string, rest: string)
    requires DateChars(date) && rest != [] && IsDigit(rest[|rest| - 1])
    ensures SplitOnce(date + "T" + rest, 'T') == Some((date, rest))
    ensures SplitDateTime(Trim(date + "T" + rest)) == Some((date, rest))
  {
    var text := date + ['T'] + rest;
    SplitOnceAt(date, 'T', rest);
    FindAt(date, 'T', rest);
    TrimKeepsTrimmed(text);
    FindBeyond(date, 'T', rest, ' ');
    assert text[..|date|] == date && text[|date| + 1..] == rest;
  }

  lemma RfcClockOf(d: Date, parts: seq<string>, f: Fields)
    requires |parts| == 3 && f.date == d
    requires ParseI64(parts[0]) == Some(f.hour) && ParseI64(parts[1]) == Some(f.minute)
    requires ParseI64(parts[2]) == Some(f.second)
    ensures RfcClockFields(d, parts, f.offset) == Some(f)
  {
  }

  lemma DbClockOf(d: Date, parts: seq<string>, f: Fields)
    requires |parts| == 3 && f.date == d && f.hour < 24 && f.minute < 60 && f.second < 60
    requires ParseI64(parts[0]) == Some(f.hour) && ParseI64(parts[1]) == Some(f.minute)
    requires ParseI64(Split(parts[2], '.')[0]) == Some(f.second)
    ensures DbClockFields(d, parts, f.offset) == Some(f)
  {
  }

  // No fraction, or a dot and digits.
  predicate IsFraction(frac: string) {
    frac == [] || (frac[0] == '.' && AllDigits(frac[1..]))
  }

  lemma FractionCut(text: string, frac: string)
    requires '.' !in text && IsFraction(frac)
    ensures Split(text + frac, '.')[0] == text
  {
    if frac == [] {
      assert text + frac == text;
      SplitNone(text, '.');
    } else {
      assert text + frac == text + ['.'] + frac[1..];
      SplitAt(text, '.', frac[1..]);
    }
  }

  lemma FractionChars(frac: string)
    requires IsFraction(frac)
    ensures ClockLike(frac) && ':' !in frac
  {
    assert forall i :: 0 < i < |frac| ==> frac[i] == frac[1..][i - 1];
  }

  lemma FractionClock(h: nat, m: nat, s: nat, frac: string)
    requires IsFraction(frac)
    ensures ClockLike(ClockText(h, m, s) + frac) && '.' !in ClockText(h, m, s)
  {
    ClockChars(h, m, s);
    FractionChars(frac);
  }

  lemma PlainClockSplits(h: nat, m: nat, s: nat, frac: string, c: string)
    requires IsFraction(frac) && c == ClockText(h, m, s) + frac
    ensures Split(Split(c, '.')[0], ':') == [Padded(h, 2), Padded(m, 2), Padded(s, 2)]
    ensures Split(c, ':') == [Padded(h, 2), Padded(m, 2), Padded(s, 2) + frac]
    ensures Split(Padded(s, 2) + frac, '.')[0] == Padded(s, 2)
  {
    FractionClock(h, m, s, frac);
    FractionChars(frac);
    FractionCut(ClockText(h, m, s), frac);
    ClockSplits(h, m, s, []);
    ClockSplits(h, m, s, frac);
    assert ClockText(h, m, s) + [] == ClockText(h, m, s) && Padded(s, 2) + [] == Padded(s, 2);
    PaddedDigits(s, 2);
    DigitsAvoid(Padded(s, 2), '.');
    FractionCut(Padded(s, 2), frac);
  }

  lemma PlainClockBack(d: Date, h: nat, m: nat, s: nat, frac: string, c: string, f: Fields)
    requires h < 24 && m < 60 && s < 60 && IsFraction(frac) && c == ClockText(h, m, s) + frac
    requires f == Fields(d, h, m, s, f.offset)
    ensures RfcClockFields(d, Split(Split(c, '.')[0], ':'), f.offset) == Some(f)
    ensures DbClockFields(d, Split(c, ':'), f.offset) == Some(f)
  {
    PlainClockSplits(h, m, s, frac, c);
    ParsePadded(h, 2);
    ParsePadded(m, 2);
    ParsePadded(s, 2);
    RfcClockOf(d, Split(Split(c, '.')[0], ':'), f);
    DbClockOf(d, Split(c, ':'), f);
  }

  lemma RfcFieldsOfZoned(d: Date, parts: seq<string>, rest: string, clock: string, f: Fields)
    requires |parts| == 3
    requires ParseI64(parts[0]) == Some(d.year) && ParseI64(parts[1]) == Some(d.month)
    requires ParseI64(parts[2]) == Some(d.day)
    requires ClockAndOffset(rest) == Some((clock, f.offset))
    requires RfcClockFields(d, Split(Split(clock, '.')[0], ':'), f.offset) == Some(f)
    ensures RfcFieldsOf(parts, rest) == Some(f)
  {
  }

  lemma DbFieldsOfZoned(d: Date, parts: seq<string>, rest: string, clock: string, f: Fields)
    requires |parts| == 3 && 1 <= d.month <= 12 && 1 <= d.day <= 31
    requires ParseI64(parts[0]) == Some(d.year) && ParseI64(parts[1]) == Some(d.month)
    requires ParseI64(parts[2]) == Some(d.day)
    requires StripZone(rest) == Some((clock, f.offset))
    requires DbClockFields(d, Split(clock, ':'), f.offset) == Some(f)
    ensures DbFieldsOf(parts, rest) == Some(f)
  {
  }

  lemma RfcSplit(text: string, date: string, rest: string)
    requires SplitOnce(text, 'T') == Some((date, rest))
    ensures RfcFields(text) == RfcFieldsOf(Split(date, '-'), rest)
  {
  }

  lemma ZonedHalves(d: Date, rest: string, text: string)
    requires IsDate(d) && 0 <= d.year < I64_LIMIT && rest != [] && IsDigit(rest[|rest| - 1])
    requires text == DateText(d) + "T" + rest
    ensures RfcFields(text) == RfcFieldsOf(Split(DateText(d), '-'), rest)
    ensures DbFields(text) == DbFieldsOf(Split(DateText(d), '-'), rest)
  {
    var date := DateText(d);
    DateIsDateChars(d);
    HalvesOfZoned(date, rest);
    RfcSplit(text, date, rest);
    DbFieldsSplit(text, date, rest);
  }

  lemma DatePartsRead(d: Date, parts: seq<string>)
    requires IsDate(d) && 0 <= d.year < I64_LIMIT && parts == Split(DateText(d), '-')
    ensures |parts| == 3 && ParseI64(parts[0]) == Some(d.year) && ParseI64(parts[1]) == Some(d.month)
    ensures ParseI64(parts[2]) == Some(d.day)
  {
    DateSplits(d);
    DateReads(d);
  }

  lemma RfcFieldsZoned(d: Date, rest: string, clock: string, f: Fields, text: string)
    requires IsDate(d) && 0 <= d.year < I64_LIMIT && RfcFields(text) == RfcFieldsOf(Split(DateText(d), '-'), rest)
    requires ClockAndOffset(rest) == Some((clock, f.offset))
    requires RfcClockFields(d, Split(Split(clock, '.')[0], ':'), f.offset) == Some(f)
    ensures RfcFields(text) == Some(f)
  {
    DatePartsRead(d, Split(DateText(d), '-'));
    RfcFieldsOfZoned(d, Split(DateText(d), '-'), rest, clock, f);
  }

  lemma DbFieldsZoned(d: Date, rest: string, clock: string, f: Fields, text: string)
    requires IsDate(d) && 0 <= d.year < I64_LIMIT && DbFields(text) == DbFieldsOf(Split(DateText(d), '-'), rest)
    requires StripZone(rest) == Some((clock, f.offset))
    requires DbClockFields(d, Split(clock, ':'), f.offset) == Some(f)
    ensures DbFields(text) == Some(f)
  {
    DatePartsRead(d, Split(DateText(d), '-'));
    DbFieldsOfZoned(d, Split(DateText(d), '-'), rest, clock, f);
  }

  // ---- Zones with and without a colon -----------------------------------------

  // Hours and minutes with a colon between them or without, or just the hours.
  predicate IsZone(z: string, zh: string, zm: string, hours: nat, minutes: nat) {
    && Spells(zh, hours) && Spells(zm, minutes) && hours < 24 && minutes < 60
    && (z == zh + ":" + zm || z == zh + zm || (z == zh && minutes == 0))
  }

  lemma BareZoneReads(sign: char, zh: string, zm: string, hours: nat, minutes: nat, z: string)
    requires (sign == '+' || sign == '-') && IsZone(z, zh, zm, hours, minutes) && z != zh + ":" + zm
    ensures AllDigits(z) && z != []
    ensures ParseZoneOffset([sign] + z) == Some(OffsetSeconds(sign, hours, minutes))
  {
    DigitsAvoid(z, ':');
    WithoutNone(z, ':');
    assert ([sign] + z)[1..] == z;
    if z == zh + zm {
      ZoneDigits([sign] + z, zh, zm, hours, minutes);
    } else {
      assert z[..2] == zh;
    }
  }

  // The credential loader refuses such a zone east of UTC and takes it for a part of the
  // clock west of it.
  lemma BareClock(c: string, sign: char, z: string, time: string, offset: int)
    requires ClockLike(c) && AllDigits(z) && z != [] && (sign == '+' || sign == '-') && time == c + [sign] + z
    requires ParseZoneOffset([sign] + z) == Some(offset)
    ensures StripZone(time) == Some((c, offset))
    ensures ClockAndOffset(time) == if sign == '+' then None else Some((time, 0))
  {
    ZoneCuts(c, sign, z, time);
    ClockOfStripped(time, c, [sign] + z, offset);
    DigitsAvoid(z, ':');
    BareZonedBy(time, c, z, RSplitOnce(time, '+'), RSplitOnce(time, '-'));
  }

  lemma BareZonedBy(time: string, c: string, z: string, plus: Option<(string, string)>, minus: Option<(string, string)>)
    requires ':' !in z && (plus == Some((c, z)) || (plus.None? && minus == Some((c, z))))
    ensures ZonedBy(time, plus, minus) == if plus.Some? then None else Some((time, 0))
  {
    FindNone(z, ':');
  }

  lemma WestClockSplits(h: nat, m: nat, s: nat, z: string, time: string)
    requires AllDigits(z) && time == ClockText(h, m, s) + ("-" + z)
    ensures Split(Split(time, '.')[0], ':') == [Padded(h, 2), Padded(m, 2), Padded(s, 2) + ("-" + z)]
  {
    ClockChars(h, m, s);
    DigitsAvoid(z, '.');
    DigitsAvoid(z, ':');
    SplitNone(time, '.');
    ClockSplits(h, m, s, "-" + z);
  }

  lemma LastPartUnreadable(d: Date, parts: seq<string>, offset: int)
    requires |parts| == 3 && ParseI64(parts[2]).None?
    ensures RfcClockFields(d, parts, offset).None?
  {
  }

  lemma FractionAhead(c: string, frac: string, tail: string, time: string)
    requires '.' !in c && IsFraction(frac) && frac != [] && time == c + frac + tail
    ensures Split(time, '.')[0] == c
  {
    assert time == c + ['.'] + (frac[1..] + tail);
    SplitAt(c, '.', frac[1..] + tail);
  }

  lemma WestClockUnread(d: Date, h: nat, m: nat, s: nat, z: string, time: string)
    requires AllDigits(z) && time == ClockText(h, m, s) + ("-" + z)
    ensures RfcClockFields(d, Split(Split(time, '.')[0], ':'), 0).None?
  {
    WestClockSplits(h, m, s, z, time);
    PaddedDigits(s, 2);
    NotANumber(Padded(s, 2), z);
    LastPartUnreadable(d, Split(Split(time, '.')[0], ':'), 0);
  }

  lemma WestClockIsUtc(d: Date, h: nat, m: nat, s: nat, frac: string, tail: string, time: string)
    requires h < 24 && m < 60 && s < 60 && IsFraction(frac) && frac != []
    requires time == ClockText(h, m, s) + frac + tail
    ensures RfcClockFields(d, Split(Split(time, '.')[0], ':'), 0) == Some(Fields(d, h, m, s, 0))
  {
    var clock := ClockText(h, m, s);
    FractionClock(h, m, s, []);
    FractionAhead(clock, frac, tail, time);
    SplitNone(clock, '.');
    assert clock + [] == clock;
    PlainClockBack(d, h, m, s, [], clock, Fields(d, h, m, s, 0));
  }

  lemma TailOf(clock: string, frac: string, z: string, time: string)
    requires time == clock + frac + "-" + z
    ensures time == clock + frac + ("-" + z) && (frac == [] ==> time == clock + ("-" + z))
  {
  }

  // What is left of such a clock: nothing readable, or the clock before its fraction.
  lemma WestClockReads(d: Date, h: nat, m: nat, s: nat, frac: string, z: string, time: string)
    requires h < 24 && m < 60 && s < 60 && IsFraction(frac) && AllDigits(z)
    requires time == ClockText(h, m, s) + frac + "-" + z
    ensures RfcClockFields(d, Split(Split(time, '.')[0], ':'), 0)
         == if frac == [] then None else Some(Fields(d, h, m, s, 0))
  {
    TailOf(ClockText(h, m, s), frac, z, time);
    if frac == [] {
      WestClockUnread(d, h, m, s, z, time);
    } else {
      WestClockIsUtc(d, h, m, s, frac, "-" + z, time);
    }
  }

  lemma NotANumber(digits: string, z: string)
    requires AllDigits(digits) && digits != []
    ensures ParseI64(digits + ("-" + z)).None?
  {
    var text := digits + ("-" + z);
    assert text[0] == digits[0] && text[|digits|] == '-';
  }

  lemma BareStamps(d: Date, h: nat, m: nat, s: nat, frac: string, sign: char, z: string, rest: string, text: string,
                   f: Fields)
    requires IsDate(d) && 0 <= d.year < I64_LIMIT && h < 24 && m < 60 && s < 60 && IsFraction(frac)
    requires (sign == '+' || sign == '-') && AllDigits(z) && z != []
    requires ParseZoneOffset([sign] + z) == Some(f.offset) && f == Fields(d, h, m, s, f.offset)
    requires rest == ClockText(h, m, s) + frac + [sign] + z && text == DateText(d) + "T" + rest
    ensures DbFields(text) == Some(f)
    ensures RfcFields(text) == if sign == '-' && frac != [] then Some(f.(offset := 0)) else None
  {
    var clock := ClockText(h, m, s) + frac;
    FractionClock(h, m, s, frac);
    BareClock(clock, sign, z, rest, f.offset);
    assert rest[|rest| - 1] == z[|z| - 1];
    PlainClockBack(d, h, m, s, frac, clock, f);
    ZonedHalves(d, rest, text);
    DbFieldsZoned(d, rest, clock, f, text);
    DatePartsRead(d, Split(DateText(d), '-'));
    if sign == '-' {
      WestClockReads(d, h, m, s, frac, z, rest);
    }
    RfcFieldsOfBare(d, Split(DateText(d), '-'), rest, sign == '+',
                    if frac == [] then None else Some(f.(offset := 0)));
  }

  lemma RfcFieldsOfBare(d: Date, parts: seq<string>, rest: string, east: bool, read: Option<Fields>)
    requires |parts| == 3
    requires ParseI64(parts[0]) == Some(d.year) && ParseI64(parts[1]) == Some(d.month)
    requires ParseI64(parts[2]) == Some(d.day)
    requires ClockAndOffset(rest) == if east then None else Some((rest, 0))
    requires !east ==> RfcClockFields(d, Split(Split(rest, '.')[0], ':'), 0) == read
    ensures RfcFieldsOf(parts, rest) == if east then None else read
  {
  }

  lemma ColonStamps(d: Date, h: nat, m: nat, s: nat, frac: string, sign: char, zh: string, zm: string, hours: nat,
                    minutes: nat, rest: string, text: string, f: Fields)
    requires IsDate(d) && 0 <= d.year < I64_LIMIT && h < 24 && m < 60 && s < 60 && IsFraction(frac)
    requires (sign == '+' || sign == '-') && IsZone(zh + ":" + zm, zh, zm, hours, minutes)
    requires rest == ClockText(h, m, s) + frac + [sign] + (zh + ":" + zm) && text == DateText(d) + "T" + rest
    requires f == Fields(d, h, m, s, OffsetSeconds(sign, hours, minutes))
    ensures RfcFields(text) == DbFields(text) == Some(f)
  {
    var clock := ClockText(h, m, s) + frac;
    FractionClock(h, m, s, frac);
    ClockWithZone(clock, sign, zh, zm, hours, minutes, zh + ":" + zm, rest);
    assert rest[|rest| - 1] == zm[1];
    PlainClockBack(d, h, m, s, frac, clock, f);
    ZonedHalves(d, rest, text);
    RfcFieldsZoned(d, rest, clock, f, text);
    DbFieldsZoned(d, rest, clock, f, text);
  }

  // The key store reads every numeric zone. The credential loader reads the same moment
  // exactly if the zone has a colon, or is UTC written as a west zone behind a fraction:
  // without the colon it refuses the stamp or, in the west and behind a fraction, reads
  // it as UTC.
  lemma ZonedStampsAgree(d: Date, h: nat, m: nat, s: nat, frac: string, sign: char, z: string, zh: string, zm: string,
                         hours: nat, minutes: nat, text: string, f: Fields)
    requires IsDate(d) && 0 <= d.year < I64_LIMIT && h < 24 && m < 60 && s < 60 && IsFraction(frac)
    requires (sign == '+' || sign == '-') && IsZone(z, zh, zm, hours, minutes)
    requires text == DateText(d) + "T" + (ClockText(h, m, s) + frac + [sign] + z)
    requires f == Fields(d, h, m, s, OffsetSeconds(sign, hours, minutes))
    ensures DbFields(text) == Some(f)
    ensures ':' !in z ==> RfcFields(text) == if sign == '-' && frac != [] then Some(f.(offset := 0)) else None
    ensures RfcFields(text) == DbFields(text) <==> ':' in z || (sign == '-' && frac != [] && f.offset == 0)
  {
    var rest := ClockText(h, m, s) + frac + [sign] + z;
    if z == zh + ":" + zm {
      assert z[2] == ':';
      ColonStamps(d, h, m, s, frac, sign, zh, zm, hours, minutes, rest, text, f);
    } else {
      BareZoneReads(sign, zh, zm, hours, minutes, z);
      DigitsAvoid(z, ':');
      BareStamps(d, h, m, s, frac, sign, z, rest, text, f);
    }
  }
}
