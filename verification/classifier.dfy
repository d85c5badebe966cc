// The temporal classifier of server/src/tasks/mod.rs: whether a task is
// overdue, which bucket it falls in, and its ordering key. A task is judged
// by its scheduled date and time when it has a scheduled date, else by its
// deadline. "Now" and the zone are parameters; today is the local date of
// now in that zone.

module Classifier {
  import opened Common
  import opened Clock

  datatype TaskStatus = Todo | Done | Abandoned

  datatype TaskBucket = Overdue | Today | Tomorrow | Upcoming | NoDate

  /// The (date, time) pair the classifier looks at: scheduled first, then
  /// deadline; none when the task has neither date.
  function CheckedPair(scheduledDate: Option<DateText>, scheduledTime: Option<I32>,
                       deadlineDate: Option<DateText>, deadlineTime: Option<I32>)
    : (r: Option<(DateText, Option<I32>)>)
    ensures scheduledDate.Some? ==> r == Some((scheduledDate.value, scheduledTime))
    ensures scheduledDate.None? && deadlineDate.Some? ==> r == Some((deadlineDate.value, deadlineTime))
    ensures r.None? <==> scheduledDate.None? && deadlineDate.None?
  {
    if scheduledDate.Some? then Some((scheduledDate.value, scheduledTime))
    else if deadlineDate.Some? then Some((deadlineDate.value, deadlineTime))
    else None
  }

  /// `is_task_overdue`: a timed task is overdue once its instant has
  /// passed; a date-only task once its local date is before today. A task
  /// whose date or time cannot be placed on the clock is not overdue.
  function IsTaskOverdue(z: Zone, now: Instant,
                         scheduledDate: Option<DateText>, scheduledTime: Option<I32>,
                         deadlineDate: Option<DateText>, deadlineTime: Option<I32>): (r: bool)
    ensures r ==> CheckedPair(scheduledDate, scheduledTime, deadlineDate, deadlineTime).Some?
    ensures r ==> var p := CheckedPair(scheduledDate, scheduledTime, deadlineDate, deadlineTime).value;
                  CombineDateTime(z, p.0, p.1).Some?
    ensures CheckedPair(scheduledDate, scheduledTime, deadlineDate, deadlineTime).Some? ==>
              var p := CheckedPair(scheduledDate, scheduledTime, deadlineDate, deadlineTime).value;
              p.1.Some? ==> (r <==> CombineDateTime(z, p.0, p.1).Some? && CombineDateTime(z, p.0, p.1).value < now)
  {
    match CheckedPair(scheduledDate, scheduledTime, deadlineDate, deadlineTime)
    case None => false
    case Some((date, time)) =>
      match CombineDateTime(z, date, time)
      case None => false
      case Some(at) =>
        if time.Some? then at < now else z.localDay(at) < z.localDay(now)
  }

  /// The bucket of a parseable date relative to today.
  function DateBucket(date: Day, today: Day): (b: TaskBucket)
    ensures b == Overdue <==> date < today
    ensures b == Today <==> date == today
    ensures b == Tomorrow <==> date != today && date == Clock.Tomorrow(today)
    ensures b != NoDate
  {
    if date < today then Overdue
    else if date == today then Today
    else if date == Clock.Tomorrow(today) then Tomorrow
    else Upcoming
  }

  /// A timed, well-formed date whose instant is placeable and has passed.
  predicate TimePassed(z: Zone, now: Instant, date: DateText, time: Option<I32>)
  {
    date.Iso? && time.Some? && CombineDateTime(z, date, time).Some? && CombineDateTime(z, date, time).value < now
  }

  /// `get_task_bucket`: no date or an unparseable one is NoDate; a timed
  /// task whose instant has passed is Overdue; otherwise the date decides.
  function GetTaskBucket(z: Zone, now: Instant,
                         scheduledDate: Option<DateText>, scheduledTime: Option<I32>,
                         deadlineDate: Option<DateText>, deadlineTime: Option<I32>): (b: TaskBucket)
    ensures b == NoDate <==>
              (CheckedPair(scheduledDate, scheduledTime, deadlineDate, deadlineTime).None? ||
               CheckedPair(scheduledDate, scheduledTime, deadlineDate, deadlineTime).value.0.Malformed?)
    ensures CheckedPair(scheduledDate, scheduledTime, deadlineDate, deadlineTime).Some? ==>
              var p := CheckedPair(scheduledDate, scheduledTime, deadlineDate, deadlineTime).value;
              TimePassed(z, now, p.0, p.1) ==> b == Overdue
    ensures CheckedPair(scheduledDate, scheduledTime, deadlineDate, deadlineTime).Some? ==>
              var p := CheckedPair(scheduledDate, scheduledTime, deadlineDate, deadlineTime).value;
              p.0.Iso? && !TimePassed(z, now, p.0, p.1) ==> b == DateBucket(p.0.day, z.localDay(now))
  {
    match CheckedPair(scheduledDate, scheduledTime, deadlineDate, deadlineTime)
    case None => NoDate
    case Some((date, time)) =>
      match date
      case Malformed(_) => NoDate
      case Iso(d) =>
        var at := CombineDateTime(z, date, time);
        if time.Some? && at.Some? && at.value < now then Overdue
        else DateBucket(d, z.localDay(now))
  }

  /// `get_task_sort_key`: scheduled instant, deadline instant (each
  /// `i64::MAX` when absent or not placeable), then the creation stamp.
  function GetTaskSortKey(z: Zone,
                          scheduledDate: Option<DateText>, scheduledTime: Option<I32>,
                          deadlineDate: Option<DateText>, deadlineTime: Option<I32>,
                          createdAt: string): (k: (int, int, string))
    ensures scheduledDate.None? ==> k.0 == I64Max
    ensures deadlineDate.None? ==> k.1 == I64Max
    ensures k.2 == createdAt
    ensures scheduledDate.Some? && CombineDateTime(z, scheduledDate.value, scheduledTime).Some? ==>
              k.0 == CombineDateTime(z, scheduledDate.value, scheduledTime).value
    ensures scheduledDate.Some? && CombineDateTime(z, scheduledDate.value, scheduledTime).None? ==> k.0 == I64Max
    ensures deadlineDate.Some? && CombineDateTime(z, deadlineDate.value, deadlineTime).Some? ==>
              k.1 == CombineDateTime(z, deadlineDate.value, deadlineTime).value
    ensures deadlineDate.Some? && CombineDateTime(z, deadlineDate.value, deadlineTime).None? ==> k.1 == I64Max
  {
    (InstantOrMax(z, scheduledDate, scheduledTime),
     InstantOrMax(z, deadlineDate, deadlineTime),
     createdAt)
  }

  function InstantOrMax(z: Zone, date: Option<DateText>, time: Option<I32>): (t: int)
    ensures date.None? ==> t == I64Max
    ensures date.Some? && CombineDateTime(z, date.value, time).None? ==> t == I64Max
    ensures date.Some? && CombineDateTime(z, date.value, time).Some? ==> t == CombineDateTime(z, date.value, time).value
  {
    if date.None? then I64Max
    else CombineDateTime(z, date.value, time).UnwrapOr(I64Max)
  }

  /// Rust's ordering of `(i64, i64, String)` keys, strictly less.
  predicate KeyBefore(a: (int, int, string), b: (int, int, string))
  {
    a.0 < b.0 || (a.0 == b.0 && (a.1 < b.1 || (a.1 == b.1 && StringBefore(a.2, b.2))))
  }

  /// Lexicographic order on strings, strictly less.
  predicate StringBefore(a: string, b: string)
  {
    (|a| < |b| && a == b[..|a|]) ||
    (exists i :: 0 <= i < |a| && i < |b| && a[..i] == b[..i] && a[i] < b[i])
  }

  // ---------------------------------------------------------------------
  // Properties
  // ---------------------------------------------------------------------

  /// Whenever the checked date and time can be placed on the clock, the
  /// overdue flag and the Overdue bucket agree.
  lemma OverdueIffOverdueBucket(z: Zone, now: Instant,
                                sd: Option<DateText>, st: Option<I32>,
                                dd: Option<DateText>, dt: Option<I32>)
    requires ZoneValid(z)
    requires CheckedPair(sd, st, dd, dt).Some?
    requires var p := CheckedPair(sd, st, dd, dt).value; CombineDateTime(z, p.0, p.1).Some?
    ensures IsTaskOverdue(z, now, sd, st, dd, dt) <==> GetTaskBucket(z, now, sd, st, dd, dt) == Overdue
  {
    var p := CheckedPair(sd, st, dd, dt).value;
    var at := CombineDateTime(z, p.0, p.1).value;
    CombinedInstantOnItsDate(z, p.0, p.1);
    var today := z.localDay(now);
    if p.1.Some? && !(at < now) {
      assert z.localDay(now) <= z.localDay(at);
      assert DateBucket(p.0.day, today) != Overdue;
    }
  }

  /// A date-only task whose local midnight is skipped by a clock change is
  /// never overdue, yet a past such date is still bucketed Overdue: the two
  /// judgements part only where midnight cannot be placed on the clock.
  lemma MidnightGapSplitsJudgements(z: Zone, now: Instant, d: Day)
    requires z.resolve(d, 0).Gap?
    requires d < z.localDay(now)
    ensures !IsTaskOverdue(z, now, Some(Iso(d)), None, None, None)
    ensures GetTaskBucket(z, now, Some(Iso(d)), None, None, None) == Overdue
  {
  }

  /// A scheduled date makes the deadline irrelevant to every judgement.
  lemma ScheduledDateTakesPrecedence(z: Zone, now: Instant, sd: DateText, st: Option<I32>,
                                     dd1: Option<DateText>, dt1: Option<I32>,
                                     dd2: Option<DateText>, dt2: Option<I32>)
    ensures IsTaskOverdue(z, now, Some(sd), st, dd1, dt1) == IsTaskOverdue(z, now, Some(sd), st, dd2, dt2)
    ensures GetTaskBucket(z, now, Some(sd), st, dd1, dt1) == GetTaskBucket(z, now, Some(sd), st, dd2, dt2)
  {
  }

  /// A task with no date, or whose checked date does not parse, is neither
  /// overdue nor in a dated bucket.
  lemma UndatedTasksAreNoDate(z: Zone, now: Instant,
                              sd: Option<DateText>, st: Option<I32>,
                              dd: Option<DateText>, dt: Option<I32>)
    requires CheckedPair(sd, st, dd, dt).None? || CheckedPair(sd, st, dd, dt).value.0.Malformed?
    ensures !IsTaskOverdue(z, now, sd, st, dd, dt)
    ensures GetTaskBucket(z, now, sd, st, dd, dt) == NoDate
  {
  }

  /// A date-only task placeable on the clock is overdue exactly when its
  /// date is before today.
  lemma DateOnlyOverdueByDate(z: Zone, now: Instant, sd: Option<DateText>, dd: Option<DateText>, dt: Option<I32>)
    requires ZoneValid(z)
    requires CheckedPair(sd, None, dd, dt).Some?
    requires var p := CheckedPair(sd, None, dd, dt).value;
             p.1.None? && CombineDateTime(z, p.0, p.1).Some?
    ensures var p := CheckedPair(sd, None, dd, dt).value;
            IsTaskOverdue(z, now, sd, None, dd, dt) <==> p.0.day < z.localDay(now)
  {
    var p := CheckedPair(sd, None, dd, dt).value;
    CombinedInstantOnItsDate(z, p.0, p.1);
  }

  /// A timed task that is not yet due is bucketed by its date, which is
  /// never before today.
  lemma PendingTimedTaskBucket(z: Zone, now: Instant, d: Day, t: I32)
    requires ZoneValid(z)
    requires CombineDateTime(z, Iso(d), Some(t)).Some?
    requires !IsTaskOverdue(z, now, Some(Iso(d)), Some(t), None, None)
    ensures GetTaskBucket(z, now, Some(Iso(d)), Some(t), None, None) == DateBucket(d, z.localDay(now))
    ensures d >= z.localDay(now)
  {
    var at := CombineDateTime(z, Iso(d), Some(t)).value;
    CombinedInstantOnItsDate(z, Iso(d), Some(t));
    assert z.localDay(now) <= z.localDay(at);
  }

  /// Tasks with a placeable scheduled instant sort before tasks without a
  /// scheduled date, and earlier scheduled instants sort first.
  lemma SortKeyOrdersScheduledFirst(z: Zone, sd: DateText, st: Option<I32>,
                                    dd: Option<DateText>, dt: Option<I32>, created: string,
                                    dd2: Option<DateText>, dt2: Option<I32>, created2: string)
    requires CombineDateTime(z, sd, st).Some? && CombineDateTime(z, sd, st).value < I64Max
    ensures KeyBefore(GetTaskSortKey(z, Some(sd), st, dd, dt, created),
                      GetTaskSortKey(z, None, None, dd2, dt2, created2))
  {
  }

  lemma SortKeyFollowsScheduledInstant(z: Zone, sd1: DateText, st1: Option<I32>,
                                       sd2: DateText, st2: Option<I32>,
                                       dd1: Option<DateText>, dt1: Option<I32>, c1: string,
                                       dd2: Option<DateText>, dt2: Option<I32>, c2: string)
    requires CombineDateTime(z, sd1, st1).Some? && CombineDateTime(z, sd2, st2).Some?
    requires CombineDateTime(z, sd1, st1).value < CombineDateTime(z, sd2, st2).value
    ensures KeyBefore(GetTaskSortKey(z, Some(sd1), st1, dd1, dt1, c1),
                      GetTaskSortKey(z, Some(sd2), st2, dd2, dt2, c2))
  {
  }
}
