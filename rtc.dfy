/**
 * The DS3231 real-time clock as the two clock programs drive it. Its time
 * lives in seven BCD registers from register 0: seconds, minutes, hours,
 * day of week, date, month and year. read_time fetches all seven in one
 * transfer; set_time writes them one register at a time. The RTC demo
 * also decides at start-up whether to resynchronise the clock with the
 * system time.
 */
module Rtc {
  import opened Wrappers
  import opened Bus

  const RtcAddress: int := 0x68

  /*
   * Binary-coded decimal.
   */

  /** bcd_to_dec: the high nibble counts tens, the low nibble units. */
  function BcdToDec(bcd: int): int
  {
    bcd / 16 * 10 + bcd % 16
  }

  /** dec_to_bcd: tens into the high nibble, units into the low one. */
  function DecToBcd(dec: int): int
  {
    dec / 10 * 16 + dec % 10
  }

  /** A packed BCD byte: two decimal digits, one per nibble. */
  predicate IsBcd(b: int)
  {
    0 <= b < 256 && b / 16 <= 9 && b % 16 <= 9
  }

  /** A number of two decimal digits becomes a BCD byte that decodes back to it. */
  lemma DecodeEncoded(d: int)
    requires 0 <= d <= 99
    ensures IsBcd(DecToBcd(d)) && BcdToDec(DecToBcd(d)) == d
  {
    var q, r := d / 10, d % 10;
    Decimal(d);
    Nibbles(q, r);
    Nibbles16(q, r);
  }

  /** A BCD byte decodes to 0..99, and encoding that gives the byte back. */
  lemma EncodeDecoded(b: int)
    requires IsBcd(b)
    ensures 0 <= BcdToDec(b) <= 99 && DecToBcd(BcdToDec(b)) == b
  {
    var q, r := b / 16, b % 16;
    Nibbles16(q, r);
    var d := 10 * q + r;
    assert BcdToDec(b) == d;
    assert d / 10 == q && d % 10 == r;
  }

  /** Any register byte decodes to 0..165 (nibbles above 9 are not rejected). */
  lemma DecodeRange(b: int)
    requires 0 <= b < 256
    ensures 0 <= BcdToDec(b) <= 165
  {
  }

  /** BCD bytes compare as the numbers they encode. */
  lemma {:induction false} BcdOrder(a: int, b: int)
    requires IsBcd(a) && IsBcd(b)
    ensures a < b <==> BcdToDec(a) < BcdToDec(b)
  {
    var ta, ua, tb, ub := a / 16, a % 16, b / 16, b % 16;
    assert a == 16 * ta + ua && b == 16 * tb + ub;
    assert BcdToDec(a) == 10 * ta + ua && BcdToDec(b) == 10 * tb + ub;
    if ta < tb {
      assert a < b && BcdToDec(a) < BcdToDec(b);
    } else if ta > tb {
      assert a > b && BcdToDec(a) > BcdToDec(b);
    }
  }

  /*
   * Calendar.
   */

  /** The fields datetime.datetime is built from. */
  datatype DateTime = DateTime(year: int, month: int, day: int, hour: int, minute: int, second: int)

  predicate IsLeap(y: int)
  {
    y % 4 == 0 && (y % 100 != 0 || y % 400 == 0)
  }

  function DaysInMonth(y: int, m: int): (n: int)
    requires 1 <= m <= 12
    ensures 28 <= n <= 31
    ensures n == 29 <==> m == 2 && IsLeap(y)
  {
    if m == 2 then (if IsLeap(y) then 29 else 28)
    else if m == 4 || m == 6 || m == 9 || m == 11 then 30
    else 31
  }

  /** What datetime.datetime accepts; anything else makes it raise ValueError. */
  predicate Valid(t: DateTime)
  {
    1 <= t.year <= 9999 && 1 <= t.month <= 12 && 1 <= t.day <= DaysInMonth(t.year, t.month) &&
    0 <= t.hour <= 23 && 0 <= t.minute <= 59 && 0 <= t.second <= 59
  }

  /** Days in the years before y of the proleptic Gregorian calendar. */
  function DaysBeforeYear(y: int): int
  {
    var p := y - 1;
    p * 365 + p / 4 - p / 100 + p / 400
  }

  /** Days in the months before m of year y. */
  function DaysBeforeMonth(y: int, m: int): (n: int)
    requires 1 <= m <= 12
    ensures 0 <= n <= 31 * (m - 1)
  {
    if m == 1 then 0 else DaysBeforeMonth(y, m - 1) + DaysInMonth(y, m - 1)
  }

  /** date.toordinal: 0001-01-01 is day 1. */
  function Ordinal(t: DateTime): int
    requires 1 <= t.month <= 12
  {
    DaysBeforeYear(t.year) + DaysBeforeMonth(t.year, t.month) + t.day
  }

  /** isoweekday: Monday 1 .. Sunday 7, day 1 being a Monday. */
  function IsoWeekday(t: DateTime): (w: int)
    requires 1 <= t.month <= 12
    ensures 1 <= w <= 7
  {
    (Ordinal(t) + 6) % 7 + 1
  }

  /** The next day of the same month falls on the next day of the week. */
  lemma NextDay(t: DateTime)
    requires 1 <= t.month <= 12
    ensures IsoWeekday(t.(day := t.day + 1)) == IsoWeekday(t) % 7 + 1
  {
    assert Ordinal(t.(day := t.day + 1)) == Ordinal(t) + 1;
  }

  /** `isoweekday() % 7 + 1`: the DS3231 counts Sunday as 1, so Monday..Saturday become 2..7. */
  function RtcWeekday(t: DateTime): (d: int)
    requires 1 <= t.month <= 12
    ensures 1 <= d <= 7
    ensures IsoWeekday(t) == 7 ==> d == 1
    ensures IsoWeekday(t) < 7 ==> d == IsoWeekday(t) + 1
  {
    IsoWeekday(t) % 7 + 1
  }

  const DayNames: seq<string> := ["Sunday", "Monday", "Tuesday", "Wednesday", "Thursday", "Friday", "Saturday"]

  /** The ISO order of the same names, Monday first. */
  const IsoDayNames: seq<string> := ["Monday", "Tuesday", "Wednesday", "Thursday", "Friday", "Saturday", "Sunday"]

  /** day_of_week_str: Python's `%` is never negative, so every integer names a day. */
  function DayOfWeekStr(d: int): (s: string)
    ensures s in DayNames && |s| >= 6
    ensures d == 1 ==> s == "Sunday"
    ensures d == 7 ==> s == "Saturday"
  {
    DayNames[(d - 1) % 7]
  }

  /** The names repeat every seven days. */
  lemma DayNamesRepeat(d: int)
    ensures DayOfWeekStr(d + 7) == DayOfWeekStr(d)
  {
    assert (d + 7 - 1) % 7 == (d - 1) % 7;
  }

  /** The day set_time writes is named after the weekday of the date it was given. */
  lemma {:induction false} WeekdayNamed(t: DateTime)
    requires 1 <= t.month <= 12
    ensures DayOfWeekStr(RtcWeekday(t)) == IsoDayNames[IsoWeekday(t) - 1]
  {
    var w := IsoWeekday(t);
    if w == 7 {
      assert RtcWeekday(t) == 1;
    } else {
      assert RtcWeekday(t) == w + 1;
      assert (w + 1 - 1) % 7 == w;
    }
  }

  const ShortDayNames: seq<string> := ["Sun", "Mon", "Tue", "Wed", "Thu", "Fri", "Sat"]

  /**
   * The 128x32 clock's `[...][day_of_week - 1]`: a negative index counts
   * from the end, and one outside -7..6 raises IndexError (None).
   */
  function ShortDayStr(d: int): (r: Option<string>)
    ensures r.Some? <==> -6 <= d <= 7
    ensures r.Some? ==> r.value in ShortDayNames
  {
    if 1 <= d <= 7 then Some(ShortDayNames[d - 1])
    else if -6 <= d <= 0 then Some(ShortDayNames[d - 1 + 7])
    else None
  }

  /** For the days the RTC counts, 1..7, the short name is the first three letters of the full one. */
  lemma ShortNames(d: int)
    requires 1 <= d <= 7
    ensures ShortDayStr(d) == Some(DayOfWeekStr(d)[..3])
  {
    var full := DayNames[d - 1];
    assert DayOfWeekStr(d) == full;
    assert full[..3] == ShortDayNames[d - 1] by {
      if d == 1 { assert full == "Sunday"; }
      else if d == 2 { assert full == "Monday"; }
      else if d == 3 { assert full == "Tuesday"; }
      else if d == 4 { assert full == "Wednesday"; }
      else if d == 5 { assert full == "Thursday"; }
      else if d == 6 { assert full == "Friday"; }
      else { assert full == "Saturday"; }
    }
  }

  /*
   * The time registers.
   */

  /**
   * The date and time read_time decodes: seconds masked with 0x7F, hours
   * with 0x3F, month with 0x1F (written here as the remainders Mask7F,
   * Mask3F and Mask1F show they are), year + 2000.
   */
  function Fields(regs: seq<bv8>): (t: DateTime)
    requires |regs| == 7
    ensures 2000 <= t.year <= 2165
    ensures 0 <= t.second <= 85 && 0 <= t.hour <= 45 && 0 <= t.month <= 25
  {
    DecodeRange(regs[6] as int);
    DateTime(BcdToDec(regs[6] as int) + 2000, BcdToDec(regs[5] as int % 32), BcdToDec(regs[4] as int),
             BcdToDec(regs[2] as int % 64), BcdToDec(regs[1] as int), BcdToDec(regs[0] as int % 128))
  }

  /** One reading: the date and time, and the day-of-week register. */
  datatype Reading = Reading(time: DateTime, weekday: int)

  /** read_time on the seven registers: None where datetime.datetime raises. */
  function DecodeTime(regs: seq<bv8>): (r: Option<Reading>)
    requires |regs| == 7
    ensures r.Some? <==> Valid(Fields(regs))
    ensures r.Some? ==> r.value.time.year >= 2000 && 0 <= r.value.weekday <= 165
  {
    DecodeRange(regs[3] as int);
    if Valid(Fields(regs)) then Some(Reading(Fields(regs), BcdToDec(regs[3] as int))) else None
  }

  /** Bit 7 of seconds, bits 6-7 of hours and bits 5-7 of month are masked off and do not change the reading. */
  lemma FlagsIgnored(regs: seq<bv8>, other: seq<bv8>)
    requires |regs| == 7 && |other| == 7
    requires other[0] & 0x7F == regs[0] & 0x7F && other[2] & 0x3F == regs[2] & 0x3F && other[5] & 0x1F == regs[5] & 0x1F
    requires other[1] == regs[1] && other[3] == regs[3] && other[4] == regs[4] && other[6] == regs[6]
    ensures DecodeTime(other) == DecodeTime(regs)
  {
    assert other[0] as int % 128 == regs[0] as int % 128 by { Mask7F(regs[0]); Mask7F(other[0]); }
    assert other[2] as int % 64 == regs[2] as int % 64 by { Mask3F(regs[2]); Mask3F(other[2]); }
    assert other[5] as int % 32 == regs[5] as int % 32 by { Mask1F(regs[5]); Mask1F(other[5]); }
    assert Fields(other) == Fields(regs);
  }

  /** set_time's data: BCD of second, minute, hour, DS3231 weekday, day, month and year - 2000. */
  function TimeRegisters(t: DateTime): (vals: seq<int>)
    requires 1 <= t.month <= 12
    ensures |vals| == 7
  {
    [DecToBcd(t.second), DecToBcd(t.minute), DecToBcd(t.hour), DecToBcd(RtcWeekday(t)),
     DecToBcd(t.day), DecToBcd(t.month), DecToBcd(t.year - 2000)]
  }

  /** `for i, val in enumerate(data): write(addr, i, val)`: register i gets value i. */
  function RegisterFrames(addr: int, vals: seq<int>): (fs: seq<seq<bv8>>)
    ensures |fs| == |vals|
    ensures forall i :: 0 <= i < |vals| ==> fs[i] == RegisterWrite(addr, i, vals[i])
  {
    seq(|vals|, i requires 0 <= i < |vals| => RegisterWrite(addr, i, vals[i]))
  }

  function SetTimeFrames(addr: int, t: DateTime): seq<seq<bv8>>
    requires 1 <= t.month <= 12
  {
    RegisterFrames(addr, TimeRegisters(t))
  }

  /** The bytes the registers hold after set_time: the low 8 bits of each value written. */
  function Stored(t: DateTime): (regs: seq<bv8>)
    requires 1 <= t.month <= 12
    ensures |regs| == 7
  {
    var vals := TimeRegisters(t);
    seq(7, i requires 0 <= i < 7 => ToByte(vals[i]))
  }

  /** Register i of set_time's frames is i, and its value byte is what the register then holds. */
  lemma StoredIsWritten(addr: int, t: DateTime, i: int)
    requires 1 <= t.month <= 12 && 0 <= i < 7
    ensures SetTimeFrames(addr, t)[i] == [AddressByte(addr), ToByte(i), Stored(t)[i]]
  {
  }

  /** The BCD value of a two-digit number fits a byte unchanged. */
  lemma StoredDigits(d: int)
    requires 0 <= d < 100
    ensures 0 <= DecToBcd(d) < 256 && ToByte(DecToBcd(d)) as int == DecToBcd(d)
  {
    DigitBack(d);
    ToByteSmall(DecToBcd(d));
  }

  lemma Mask7F(b: bv8)
    ensures (b & 0x7F) as int == b as int % 128
  {
  }

  lemma Mask3F(b: bv8)
    ensures (b & 0x3F) as int == b as int % 64
  {
  }

  lemma Mask1F(b: bv8)
    ensures (b & 0x1F) as int == b as int % 32
  {
  }

  /** The BCD byte of tens q and units r is 16q + r, which decodes to 10q + r. */
  lemma Nibbles(q: int, r: int)
    requires 0 <= q && 0 <= r < 16
    ensures BcdToDec(16 * q + r) == 10 * q + r
  {
    Nibbles16(q, r);
  }

  lemma Nibbles16(q: int, r: int)
    requires 0 <= q && 0 <= r < 16
    ensures (16 * q + r) / 16 == q && (16 * q + r) % 16 == r
  {
  }

  lemma SmallMod(v: int, m: int)
    requires 0 <= v < m
    ensures v % m == v
  {
  }

  lemma Decimal(d: int)
    requires 0 <= d
    ensures 0 <= d / 10 && 0 <= d % 10 <= 9 && d == 10 * (d / 10) + d % 10
    ensures DecToBcd(d) == 16 * (d / 10) + d % 10
  {
  }

  /** A two-digit field decodes back from its BCD value, which is below 128, 64 or 32 when the field is below 80, 40 or 20. */
  lemma DigitBack(d: int)
    requires 0 <= d < 100
    ensures var v := DecToBcd(d);
      0 <= v < 256 && BcdToDec(v) == d && (d < 80 ==> v < 128) && (d < 40 ==> v < 64) && (d < 20 ==> v < 32)
  {
    Decimal(d);
    Nibbles(d / 10, d % 10);
  }

  /** The BCD byte of a two-digit field reads back as that field, also under each mask that keeps its digits. */
  lemma FieldBack(v: int, d: int)
    requires 0 <= d < 100 && v == DecToBcd(d)
    ensures BcdToDec(v) == d
    ensures d < 80 ==> BcdToDec(v % 128) == d
    ensures d < 40 ==> BcdToDec(v % 64) == d
    ensures d < 20 ==> BcdToDec(v % 32) == d
  {
    DigitBack(d);
    if d < 80 {
      SmallMod(v, 128);
    }
    if d < 40 {
      SmallMod(v, 64);
    }
    if d < 20 {
      SmallMod(v, 32);
    }
  }

  /** The byte set_time writes for a two-digit field reads back as that field, also under each mask that keeps its digits. */
  lemma Written(b: bv8, d: int)
    requires 0 <= d < 100 && b == ToByte(DecToBcd(d))
    ensures BcdToDec(b as int) == d
    ensures d < 80 ==> BcdToDec(b as int % 128) == d
    ensures d < 40 ==> BcdToDec(b as int % 64) == d
    ensures d < 20 ==> BcdToDec(b as int % 32) == d
  {
    StoredDigits(d);
    FieldBack(b as int, d);
  }

  /**
   * Writing a date of this century with set_time and reading it back with
   * read_time gives the same date and time, and the DS3231 weekday.
   */
  lemma ReadBack(t: DateTime)
    requires Valid(t) && 2000 <= t.year <= 2099
    ensures DecodeTime(Stored(t)) == Some(Reading(t, RtcWeekday(t)))
  {
    var regs := Stored(t);
    Written(regs[0], t.second);
    Written(regs[1], t.minute);
    Written(regs[2], t.hour);
    Written(regs[3], RtcWeekday(t));
    Written(regs[4], t.day);
    Written(regs[5], t.month);
    Written(regs[6], t.year - 2000);
    assert Fields(regs) == t;
  }

  /*
   * strftime.
   */

  function DigitChar(d: int): (c: char)
    requires 0 <= d <= 9
    ensures '0' <= c <= '9'
  {
    ('0' as int + d) as char
  }

  /** n in w decimal digits, zero-padded on the left, as strftime's %H, %M, %S, %m, %d and %Y print it. */
  function Padded(n: nat, w: nat): (s: string)
    ensures |s| == w
    ensures forall i :: 0 <= i < w ==> '0' <= s[i] <= '9'
  {
    if w == 0 then "" else Padded(n / 10, w - 1) + [DigitChar(n % 10)]
  }

  function Power10(w: nat): (p: nat)
    ensures p >= 1
  {
    if w == 0 then 1 else 10 * Power10(w - 1)
  }

  /** The number a string of decimal digits spells, the reading of int(s). */
  function Value(s: string): nat
    requires forall i :: 0 <= i < |s| ==> '0' <= s[i] <= '9'
  {
    if s == [] then 0 else 10 * Value(s[..|s| - 1]) + (s[|s| - 1] as int - '0' as int)
  }

  /** Reading the digits back gives the number, when it has at most w digits. */
  lemma {:induction false} PaddedValue(n: nat, w: nat)
    requires n < Power10(w)
    ensures Value(Padded(n, w)) == n
  {
    if w > 0 {
      var s := Padded(n, w);
      assert s[..|s| - 1] == Padded(n / 10, w - 1);
      assert n / 10 < Power10(w - 1);
      PaddedValue(n / 10, w - 1);
    }
  }

  /** strftime("%H:%M:%S") */
  function TimeString(t: DateTime): (s: string)
    requires Valid(t)
    ensures |s| == 8 && s[2] == ':' && s[5] == ':'
  {
    Padded(t.hour, 2) + ":" + Padded(t.minute, 2) + ":" + Padded(t.second, 2)
  }

  /** strftime("%m/%d/%Y"), for the four-digit years a reading has. */
  function DateString(t: DateTime): (s: string)
    requires Valid(t) && t.year >= 1000
    ensures |s| == 10 && s[2] == '/' && s[5] == '/'
  {
    Padded(t.month, 2) + "/" + Padded(t.day, 2) + "/" + Padded(t.year, 4)
  }

  /** Both strings are made of digits and their separators only. */
  lemma StringsAreDigits(t: DateTime)
    requires Valid(t) && t.year >= 1000
    ensures forall c :: c in TimeString(t) ==> '0' <= c <= '9' || c == ':'
    ensures forall c :: c in DateString(t) ==> '0' <= c <= '9' || c == '/'
  {
    var h, m, s := Padded(t.hour, 2), Padded(t.minute, 2), Padded(t.second, 2);
    assert TimeString(t) == h + [':'] + m + [':'] + s;
    var mo, d, y := Padded(t.month, 2), Padded(t.day, 2), Padded(t.year, 4);
    assert DateString(t) == mo + ['/'] + d + ['/'] + y;
  }

  /** The time string reads back as the hour, minute and second it was printed from. */
  lemma TimeStringFields(t: DateTime)
    requires Valid(t)
    ensures var s := TimeString(t);
      Value(s[0..2]) == t.hour && Value(s[3..5]) == t.minute && Value(s[6..8]) == t.second
  {
    var s := TimeString(t);
    assert s[0..2] == Padded(t.hour, 2);
    assert s[3..5] == Padded(t.minute, 2);
    assert s[6..8] == Padded(t.second, 2);
    PaddedValue(t.hour, 2);
    PaddedValue(t.minute, 2);
    PaddedValue(t.second, 2);
  }

  /** The date string reads back as the month, day and year it was printed from. */
  lemma DateStringFields(t: DateTime)
    requires Valid(t) && t.year >= 1000
    ensures var s := DateString(t);
      Value(s[0..2]) == t.month && Value(s[3..5]) == t.day && Value(s[6..10]) == t.year
  {
    var s := DateString(t);
    assert s[0..2] == Padded(t.month, 2);
    assert s[3..5] == Padded(t.day, 2);
    assert s[6..10] == Padded(t.year, 4);
    PaddedValue(t.month, 2);
    PaddedValue(t.day, 2);
    PaddedValue(t.year, 4);
  }

  /** `f"{a}\n{b}\n{c}"`: three lines, each readable back from its place. */
  function Lines(a: string, b: string, c: string): (s: string)
    ensures |s| == |a| + |b| + |c| + 2
    ensures s[..|a|] == a && s[|a|] == '\n'
    ensures s[|a| + 1..|a| + 1 + |b|] == b && s[|a| + 1 + |b|] == '\n'
    ensures s[|a| + |b| + 2..] == c
  {
    var last := "\n" + c;
    var rest := b + last;
    var s := a + ("\n" + rest);
    assert s[|a| + 1..] == rest;
    assert s[|a| + 1..|a| + 1 + |b|] == rest[..|b|];
    assert s[|a| + |b| + 2..] == rest[|b| + 1..];
    s
  }

  /** update_display's label: time, day name and date on three lines. */
  function LabelText(r: Reading): string
    requires Valid(r.time) && r.time.year >= 1000
  {
    Lines(TimeString(r.time), DayOfWeekStr(r.weekday), DateString(r.time))
  }

  /*
   * The start-up check of the RTC demo.
   */

  /** Seconds from 0001-01-01 00:00:00 to t. */
  function Instant(t: DateTime): int
    requires 1 <= t.month <= 12
  {
    (Ordinal(t) - 1) * 86400 + t.hour * 3600 + t.minute * 60 + t.second
  }

  /** `(system_time - current_time).total_seconds()`: the system time carries microseconds, the RTC's does not. */
  function Drift(system: DateTime, micro: int, rtc: DateTime): real
    requires 1 <= system.month <= 12 && 1 <= rtc.month <= 12
  {
    (Instant(system) - Instant(rtc)) as real + micro as real / 1000000.0
  }

  /** The RTC is resynchronised when it is more than 15 seconds off or names another day of the week. */
  predicate NeedsSync(drift: real, rtcDay: int, systemDay: int)
  {
    (if drift < 0.0 then -drift else drift) > 15.0 || rtcDay != systemDay
  }

  /** Right after a resynchronisation the clock reads back close enough, on the right day: no second sync follows. */
  lemma SyncSettles(system: DateTime, micro: int)
    requires Valid(system) && 2000 <= system.year <= 2099 && 0 <= micro < 1000000
    ensures DecodeTime(Stored(system)).Some?
    ensures var r := DecodeTime(Stored(system)).value;
      !NeedsSync(Drift(system, micro, r.time), r.weekday, RtcWeekday(system))
  {
    ReadBack(system);
  }

  /** The request read_time sends before reading 7 bytes: `[addr << 1, 0x00]`. */
  function ReadRequest(addr: int): (f: seq<bv8>)
    ensures |f| == 2 && f[0] == AddressByte(addr) && f[1] == 0
  {
    [AddressByte(addr), 0]
  }

  /** The DS3231 class of both clock programs. */
  class Ds3231 {
    const bus: I2CBus
    const address: int

    constructor (bus: I2CBus, address: int)
      ensures this.bus == bus && this.address == address
    {
      this.bus := bus;
      this.address := address;
    }

    /**
     * read_time: one transfer from register 0 of 7 bytes. A refused
     * transfer raises, and so does a date datetime.datetime rejects; both
     * are None.
     */
    method ReadTime() returns (ok: bool, regs: seq<bv8>, r: Option<Reading>)
      modifies bus
      ensures bus.trace == old(bus.trace) + [ReadRequest(address)]
      ensures |regs| == 7 && r == (if ok then DecodeTime(regs) else None)
    {
      ok, regs := bus.Read(ReadRequest(address), 7);
      if !ok {
        return ok, regs, None;
      }
      r := DecodeTime(regs);
    }

    /** set_time: registers 0..6 written in order, one transfer each, until one is refused. */
    method SetTime(t: DateTime) returns (ok: bool)
      requires Valid(t)
      modifies bus
      ensures Sent(old(bus.trace), bus.trace, SetTimeFrames(address, t), ok)
    {
      var data := TimeRegisters(t);
      ghost var t0 := bus.trace;
      ghost var all := SetTimeFrames(address, t);
      var i := 0;
      ok := true;
      while i < |data|
        invariant 0 <= i <= |data|
        invariant bus.trace == t0 + all[..i]
      {
        ok := bus.Write(RegisterWrite(address, i, data[i]));
        PrefixStep(t0, all, i);
        if !ok {
          return;
        }
        i := i + 1;
      }
      assert all[..i] == all;
    }
  }

  /**
   * The RTC demo's start: read the clock and, when it is more than 15
   * seconds away from the system time or on another weekday, write the
   * system time into it. A failed read ends the program (None).
   */
  method Synchronise(rtc: Ds3231, system: DateTime, micro: int)
    returns (readOk: bool, regs: seq<bv8>, r: Option<Reading>, synced: bool, ok: bool)
    requires Valid(system) && 0 <= micro < 1000000
    modifies rtc.bus
    ensures |regs| == 7 && r == (if readOk then DecodeTime(regs) else None)
    ensures r.None? ==> !synced && !ok && rtc.bus.trace == old(rtc.bus.trace) + [ReadRequest(rtc.address)]
    ensures r.Some? ==> (Valid(r.value.time) &&
      (synced <==> NeedsSync(Drift(system, micro, r.value.time), r.value.weekday, RtcWeekday(system))))
    ensures r.Some? && synced ==>
      Sent(old(rtc.bus.trace) + [ReadRequest(rtc.address)], rtc.bus.trace, SetTimeFrames(rtc.address, system), ok)
    ensures r.Some? && !synced ==> ok && rtc.bus.trace == old(rtc.bus.trace) + [ReadRequest(rtc.address)]
  {
    readOk, regs, r := rtc.ReadTime();
    if r.None? {
      return readOk, regs, None, false, false;
    }
    var current := r.value;
    var systemDay := RtcWeekday(system);
    var drift := Drift(system, micro, current.time);
    synced := NeedsSync(drift, current.weekday, systemDay);
    ok := true;
    if synced {
      ok := rtc.SetTime(system);
    }
  }

  /** update_display without the window: one reading, and the label text it makes; a failed read raises (None). */
  method UpdateDisplay(rtc: Ds3231) returns (readOk: bool, regs: seq<bv8>, text: Option<string>)
    modifies rtc.bus
    ensures rtc.bus.trace == old(rtc.bus.trace) + [ReadRequest(rtc.address)]
    ensures |regs| == 7
    ensures text == (if readOk && DecodeTime(regs).Some? then Some(LabelText(DecodeTime(regs).value)) else None)
  {
    var r;
    readOk, regs, r := rtc.ReadTime();
    if r.None? {
      return readOk, regs, None;
    }
    text := Some(LabelText(r.value));
  }
}
