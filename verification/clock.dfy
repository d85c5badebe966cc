// Calendar dates, wall-clock minutes and time zones as the server's
// `time_utils` sees them (server/src/tasks/mod.rs). The IANA zone database
// is not modelled: a zone is an oracle that resolves a local date and
// minute to instants and maps instants back to local dates and minutes.

module Clock {
  import opened Common

  /// A calendar date, counted in days from 1970-01-01 (proleptic Gregorian).
  type Day = int

  /// A point in time, in seconds since the Unix epoch.
  type Instant = int

  /// A wall-clock minute within a day.
  type MinuteOfDay = m: int | 0 <= m < 1440

  /// The last date chrono represents (`NaiveDate::MAX`, +262143-12-31).
  const LastDay: Day := 95026601

  const I64Max: int := 0x7fff_ffff_ffff_ffff

  const SecondsPerMinute := 60

  /// A stored `YYYY-MM-DD` text: either a date chrono parses, or text it rejects.
  datatype DateText = Iso(day: Day) | Malformed(raw: string)

  /// chrono's `LocalResult` for a local date-time in a zone.
  datatype LocalResult = Single(at: Instant) | Ambiguous(earliest: Instant, latest: Instant) | Gap

  /// A time zone: local date-time to instants, and instants to local date and minute.
  datatype Zone = Zone(resolve: (Day, MinuteOfDay) -> LocalResult,
                       localDay: Instant -> Day,
                       localMinute: Instant -> MinuteOfDay)

  /// Every instant a local date-time resolves to shows that date-time on the
  /// zone's clock, an ambiguous one lists its instants in order, and the
  /// local date never runs backwards.
  ghost predicate ZoneValid(z: Zone)
  {
    (forall d, m :: ResolvesBack(z, z.resolve(d, m), d, m)) &&
    (forall a, b :: a <= b ==> z.localDay(a) <= z.localDay(b))
  }

  ghost predicate ResolvesBack(z: Zone, r: LocalResult, d: Day, m: MinuteOfDay)
  {
    match r
    case Single(t) => z.localDay(t) == d && z.localMinute(t) == m
    case Ambiguous(e, l) =>
      e < l && z.localDay(e) == d && z.localMinute(e) == m &&
      z.localDay(l) == d && z.localMinute(l) == m
    case Gap => true
  }

  /// The day after `today`, or `today` itself at the end of the calendar
  /// (`succ_opt().unwrap_or(today)`).
  function Tomorrow(today: Day): (t: Day)
    ensures today < LastDay ==> t == today + 1
    ensures today >= LastDay ==> t == today
  {
    if today < LastDay then today + 1 else today
  }

  /// Rust's `/` on integers: rounds toward zero, so `b * q` is the
  /// multiple of `b` nearest `a` on the side of zero.
  function TruncDiv(a: int, b: int): (q: int)
    requires b > 0
    ensures a >= 0 ==> 0 <= q && b * q <= a < b * q + b
    ensures a < 0 ==> q <= 0 && b * q - b < a <= b * q
  {
    if a >= 0 then
      var d := a / b;
      assert 0 <= d by {
        assert a == b * d + a % b && a % b < b;
        if d < 0 { MulNegative(b, d); }
      }
      d
    else
      var d := (-a) / b;
      assert 0 <= d by {
        assert -a == b * d + (-a) % b && (-a) % b < b;
        if d < 0 { MulNegative(b, d); }
      }
      assert b * -d == -(b * d);
      -d
  }

  /// A positive number times a negative one is at most its negation.
  lemma {:induction false} MulNegative(b: int, d: int)
    requires b > 0 && d < 0
    ensures b * d <= -b
    decreases -d
  {
    if d < -1 {
      MulNegative(b, d + 1);
      assert b * d == b * (d + 1) - b;
    }
  }

  /// Rust's `%` on integers: takes the sign of the dividend.
  function TruncRem(a: int, b: int): (r: int)
    requires b > 0
    ensures a == b * TruncDiv(a, b) + r
    ensures -b < r < b
    ensures a >= 0 ==> 0 <= r
    ensures a < 0 ==> r <= 0
  {
    a - b * TruncDiv(a, b)
  }

  /// `x as u32` for an `i32` value: two's-complement reinterpretation.
  function AsU32(x: I32): (r: int)
    ensures x >= 0 ==> r == x
    ensures x < 0 ==> r == x + 0x1_0000_0000
  {
    x % 0x1_0000_0000
  }

  /// `NaiveTime::from_hms_opt(h, m, 0)` as a minute of the day.
  function FromHm(h: nat, m: nat): (r: Option<MinuteOfDay>)
    ensures r.Some? <==> h < 24 && m < 60
  {
    if h < 24 && m < 60 then Some(h * 60 + m) else None
  }

  /// The time of day `combine_date_time` builds from a minute count:
  /// `from_hms_opt((minutes / 60) as u32, (minutes % 60) as u32, 0)`.
  function TimeOfDay(minutes: I32): (r: Option<MinuteOfDay>)
    ensures r.Some? <==> 0 <= minutes < 1440
    ensures r.Some? ==> r.value == minutes
  {
    var h := TruncDiv(minutes, 60);
    var m := TruncRem(minutes, 60);
    NegativeClockPartsAreLarge(minutes);
    FromHm(AsU32(h), AsU32(m))
  }

  /// A negative minute count makes one of the two `u32` casts wrap far
  /// beyond a valid hour or minute.
  lemma NegativeClockPartsAreLarge(minutes: I32)
    ensures var h := TruncDiv(minutes, 60);
            -35791395 <= h < 35791395 &&
            (minutes < 0 ==> (h < 0 || (h == 0 && TruncRem(minutes, 60) < 0)))
  {
  }

  /// `combine_date_time`: the instant of a stored date and optional minute
  /// count in zone `z`. A date-only task sits at local midnight; an
  /// ambiguous local time takes the earlier instant; a skipped one has none.
  function CombineDateTime(z: Zone, date: DateText, time: Option<I32>): (r: Option<Instant>)
    ensures date.Malformed? ==> r.None?
    ensures time.Some? && !(0 <= time.value < 1440) ==> r.None?
    ensures date.Iso? && time.None? ==> r == LocalInstant(z.resolve(date.day, 0))
    ensures date.Iso? && time.Some? && 0 <= time.value < 1440 ==>
              r == LocalInstant(z.resolve(date.day, time.value))
  {
    match date
    case Malformed(_) => None
    case Iso(d) =>
      var clock := if time.Some? then TimeOfDay(time.value) else Some(0);
      if clock.None? then None else LocalInstant(z.resolve(d, clock.value))
  }

  /// The instant `combine_date_time` keeps from a `LocalResult`.
  function LocalInstant(r: LocalResult): (t: Option<Instant>)
    ensures r.Single? ==> t == Some(r.at)
    ensures r.Ambiguous? ==> t == Some(r.earliest)
    ensures r.Gap? ==> t.None?
  {
    match r
    case Single(at) => Some(at)
    case Ambiguous(e, _) => Some(e)
    case Gap => None
  }

  /// `LocalResult::single()`: the instant only when it is unambiguous.
  function SingleInstant(r: LocalResult): (t: Option<Instant>)
    ensures t.Some? <==> r.Single?
  {
    if r.Single? then Some(r.at) else None
  }

  /// In a well-formed zone, a combined instant lies on the stored date.
  lemma CombinedInstantOnItsDate(z: Zone, date: DateText, time: Option<I32>)
    requires ZoneValid(z)
    requires CombineDateTime(z, date, time).Some?
    ensures date.Iso?
    ensures z.localDay(CombineDateTime(z, date, time).value) == date.day
  {
    var m: MinuteOfDay := if time.Some? then time.value else 0;
    assert ResolvesBack(z, z.resolve(date.day, m), date.day, m);
  }
}
