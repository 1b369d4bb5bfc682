/**
 Usage ranges in local calendar days. Instants are milliseconds since the epoch and ranges
 are half-open in seconds, as in the source.
 */
module UsageRange {
  import opened Text
  import opened Calendar

  const HOUR := 3_600_000
  const DAY_SECONDS := 86_400

  /**
   A time zone: `instant(d, w)` is the instant that setting a local `Date` to wall time `w`
   of day `d` yields, and `opening(d)` the wall time at which day `d` begins, which is 0
   unless a clock change skips midnight.
   */
  datatype Zone = Zone(instant: (int, nat) -> int, opening: int -> nat)

  /** First instant of a local day: what `new Date(year, month, day)` yields. */
  function Start(z: Zone, d: int): int {
    z.instant(d, 0)
  }

  /** The wall time that opens day `e` is also the first instant of day `d`. */
  predicate OpensTheDay(z: Zone, d: int, e: int) {
    z.opening(e) == 0 || z.opening(e) == z.opening(d)
  }

  /**
   Day `d` lasts 23 to 25 hours and begins on a whole second. Setting a date to the wall
   time that opens day `e` stays on day `d`, and meets its first instant only if that is
   its opening time too.
   */
  predicate IsRegular(z: Zone, d: int, e: int) {
    && 23 * HOUR <= Start(z, d + 1) - Start(z, d) <= 25 * HOUR
    && Start(z, d) % 1000 == 0
    && z.instant(d, z.opening(e)) % 1000 == 0
    && Start(z, d) <= z.instant(d, z.opening(e)) < Start(z, d) + 23 * HOUR
    && (z.instant(d, z.opening(e)) == Start(z, d) <==> OpensTheDay(z, d, e))
  }

  ghost predicate IsZone(z: Zone) {
    forall d, e :: IsRegular(z, d, e)
  }

  predicate OnDay(z: Zone, t: int, d: int) {
    Start(z, d) <= t < Start(z, d + 1)
  }

  lemma DayLength(z: Zone, d: int)
    requires IsZone(z)
    ensures 23 * HOUR <= Start(z, d + 1) - Start(z, d) <= 25 * HOUR
    ensures Start(z, d) % 1000 == 0
  {
    assert IsRegular(z, d, d);
  }

  function DayUp(z: Zone, d: int, t: int): (r: int)
    requires IsZone(z) && Start(z, d) <= t
    ensures OnDay(z, t, r)
    decreases t - Start(z, d)
  {
    DayLength(z, d);
    if t < Start(z, d + 1) then d else DayUp(z, d + 1, t)
  }

  function DayDown(z: Zone, d: int, t: int): (r: int)
    requires IsZone(z) && t < Start(z, d + 1)
    ensures OnDay(z, t, r)
    decreases Start(z, d + 1) - t
  {
    DayLength(z, d);
    if Start(z, d) <= t then d else DayDown(z, d - 1, t)
  }

  /** The local day of an instant, as a day number. */
  function LocalDay(z: Zone, t: int): (d: int)
    requires IsZone(z)
    ensures OnDay(z, t, d)
  {
    if Start(z, 0) <= t then DayUp(z, 0, t) else DayDown(z, -1, t)
  }

  lemma {:induction false} StartsIncrease(z: Zone, d: int, e: int)
    requires IsZone(z) && d <= e
    ensures Start(z, d) + (e - d) * 23 * HOUR <= Start(z, e)
    decreases e - d
  {
    if d < e {
      DayLength(z, d);
      StartsIncrease(z, d + 1, e);
    }
  }

  lemma DayIsUnique(z: Zone, t: int, d: int)
    requires IsZone(z) && OnDay(z, t, d)
    ensures LocalDay(z, t) == d
  {
    var e := LocalDay(z, t);
    if d < e {
      StartsIncrease(z, d + 1, e);
    } else if e < d {
      StartsIncrease(z, e + 1, d);
    }
  }

  // ---------- dates ----------

  /** `getStartOfLocalDayDate`, through the civil date. */
  function StartOfLocalDay(z: Zone, nowMs: int): int
    requires IsZone(z)
  {
    var c := DateOf(LocalDay(z, nowMs));
    z.instant(MakeDay(c.year, c.month, c.day), 0)
  }

  /** `setDate(getDate() + n)` on a `Date` that stands at the start of local day `d`. */
  function ShiftDays(z: Zone, d: int, n: int): int {
    var c := DateOf(d);
    z.instant(MakeDay(c.year, c.month, c.day + n), z.opening(d))
  }

  /** Day `d + n` at the wall time that opens day `d`. */
  function Landing(z: Zone, d: int, n: int): int {
    z.instant(d + n, z.opening(d))
  }

  lemma ShiftsByDays(z: Zone, d: int, n: int)
    ensures ShiftDays(z, d, n) == Landing(z, d, n)
  {
    var c := DateOf(d);
    MakeDayAdds(c, n);
    assert MakeDay(c.year, c.month, c.day + n) == d + n;
  }

  lemma StartsToday(z: Zone, nowMs: int)
    requires IsZone(z)
    ensures StartOfLocalDay(z, nowMs) == Start(z, LocalDay(z, nowMs))
  {
    MakeDayAdds(DateOf(LocalDay(z, nowMs)), 0);
  }

  // ---------- selections ----------

  datatype Preset = Today | OneDay | SevenDays | FourteenDays | ThirtyDays | OneYear | Custom

  datatype Selection = Selection(preset: Preset, start: Option<int>, end: Option<int>, live: bool)

  datatype Range = Range(start: int, end: int)

  /** Local midnight of today less 29 days. */
  function FreeWindowStart(z: Zone, nowMs: int): int
    requires IsZone(z)
  {
    ShiftDays(z, LocalDay(z, nowMs), -29)
  }

  predicate IsBeforeFreeWindow(z: Zone, day: int, nowMs: int)
    requires IsZone(z)
  {
    var c := DateOf(day);
    z.instant(MakeDay(c.year, c.month, c.day), 0) < FreeWindowStart(z, nowMs)
  }

  function ClampToFreeWindow(z: Zone, s: Selection, nowMs: int): Selection
    requires IsZone(z)
  {
    if s.preset.OneYear? then Selection(ThirtyDays, None, None, false)
    else if !s.preset.Custom? then s
    else
      var minStart := FreeWindowStart(z, nowMs) / 1000;
      if s.start.Some? && s.start.value < minStart then s.(start := Some(minStart)) else s
  }

  /** Local days a calendar preset covers, today included. */
  function DayCount(preset: Preset): (n: nat)
    requires !preset.OneDay? && !preset.Custom?
    ensures n > 0
  {
    match preset
    case Today => 1
    case SevenDays => 7
    case FourteenDays => 14
    case ThirtyDays => 30
    case OneYear => 365
  }

  /** The current second is included: the end is the next one. */
  function ResolveUsageRange(z: Zone, s: Selection, nowMs: int): Range
    requires IsZone(z)
  {
    var end := nowMs / 1000 + 1;
    match s.preset
    case Today => Range(StartOfLocalDay(z, nowMs) / 1000, end)
    case OneDay => Range(end - DAY_SECONDS, end)
    case Custom =>
      Range(
        if s.start.Some? then s.start.value else end - DAY_SECONDS,
        if s.live || s.end.None? then end else s.end.value)
    case _ => Range(ShiftDays(z, LocalDay(z, nowMs), -(DayCount(s.preset) - 1)) / 1000, end)
  }

  function ResolveProviderActivityRange(z: Zone, nowMs: int): Range
    requires IsZone(z)
  {
    var today := LocalDay(z, nowMs);
    Range(ShiftDays(z, today, -364) / 1000, ShiftDays(z, today, 1) / 1000)
  }

  // ---------- the free window ----------

  lemma ClampIsIdempotent(z: Zone, s: Selection, nowMs: int)
    requires IsZone(z)
    ensures var clamped := ClampToFreeWindow(z, s, nowMs);
            && ClampToFreeWindow(z, clamped, nowMs) == clamped
            && clamped.preset == (if s.preset == OneYear then ThirtyDays else s.preset)
            && (s.preset != OneYear ==> clamped.end == s.end && clamped.live == s.live)
            && (clamped != s ==>
                 s.preset == OneYear || (s.preset == Custom && s.start.Some? && s.start.value < clamped.start.value))
  {
  }

  /** A shift that keeps the wall time stays on the day it lands on. */
  lemma ShiftLands(z: Zone, d: int, n: int)
    requires IsZone(z)
    ensures OnDay(z, Landing(z, d, n), d + n)
    ensures Landing(z, d, n) % 1000 == 0
    ensures Landing(z, d, n) == Start(z, d + n) <==> OpensTheDay(z, d + n, d)
  {
    assert IsRegular(z, d + n, d);
  }

  lemma EarlierLanding(z: Zone, d: int, m: int, n: int)
    requires IsZone(z) && m < n
    ensures Landing(z, d, m) < Start(z, d + n) <= Landing(z, d, n)
  {
    ShiftLands(z, d, m);
    ShiftLands(z, d, n);
    StartsIncrease(z, d + m + 1, d + n);
  }

  /** The range from the start of the n-th last day, today included, up to the current second. */
  function LastDays(z: Zone, n: int, nowMs: int): Range
    requires IsZone(z)
  {
    Range(Landing(z, LocalDay(z, nowMs), 1 - n) / 1000, nowMs / 1000 + 1)
  }

  /** The calendar presets and the local days each is meant to cover. */
  predicate IsDays(preset: Preset, n: nat) {
    || (preset == Today && n == 1)
    || (preset == SevenDays && n == 7)
    || (preset == FourteenDays && n == 14)
    || (preset == ThirtyDays && n == 30)
    || (preset == OneYear && n == 365)
  }

  lemma PresetIsLastDays(z: Zone, s: Selection, n: nat, nowMs: int)
    requires IsZone(z) && IsDays(s.preset, n)
    ensures ResolveUsageRange(z, s, nowMs) == LastDays(z, n, nowMs)
  {
    var today := LocalDay(z, nowMs);
    if s.preset.Today? {
      StartsToday(z, nowMs);
      StartIsLanding(z, today);
    } else {
      assert -(DayCount(s.preset) - 1) == 1 - n;
      ShiftsByDays(z, today, 1 - n);
    }
  }

  lemma StartIsLanding(z: Zone, d: int)
    requires IsZone(z)
    ensures Start(z, d) == Landing(z, d, 0)
  {
    ShiftLands(z, d, 0);
  }

  lemma FreeWindowLanding(z: Zone, nowMs: int)
    requires IsZone(z)
    ensures FreeWindowStart(z, nowMs) == Landing(z, LocalDay(z, nowMs), -29)
  {
    ShiftsByDays(z, LocalDay(z, nowMs), -29);
  }

  /** The last 24 hours, and today, lie within the window. */
  lemma RecentIsInWindow(z: Zone, nowMs: int)
    requires IsZone(z)
    ensures var today := LocalDay(z, nowMs);
            Landing(z, today, -29) < Start(z, today) && Landing(z, today, -29) / 1000 <= nowMs / 1000 + 1 - DAY_SECONDS
  {
    var today := LocalDay(z, nowMs);
    EarlierLanding(z, today, -29, -28);
    StartsIncrease(z, today - 28, today);
  }

  /** Whatever is selected, a clamped range does not start before the free window. */
  lemma ClampedStartIsInWindow(z: Zone, s: Selection, nowMs: int)
    requires IsZone(z)
    ensures ResolveUsageRange(z, ClampToFreeWindow(z, s, nowMs), nowMs).start >= FreeWindowStart(z, nowMs) / 1000
  {
    FreeWindowLanding(z, nowMs);
    RecentIsInWindow(z, nowMs);
    var clamped := ClampToFreeWindow(z, s, nowMs);
    match clamped.preset
    case Today => StartsToday(z, nowMs);
    case OneDay =>
    case Custom =>
    case SevenDays => LookbackIsInWindow(z, clamped, 7, nowMs, ResolveUsageRange(z, clamped, nowMs));
    case FourteenDays => LookbackIsInWindow(z, clamped, 14, nowMs, ResolveUsageRange(z, clamped, nowMs));
    case ThirtyDays => LookbackIsInWindow(z, clamped, 30, nowMs, ResolveUsageRange(z, clamped, nowMs));
  }

  lemma LookbackIsInWindow(z: Zone, s: Selection, n: nat, nowMs: int, r: Range)
    requires IsZone(z) && IsDays(s.preset, n) && n <= 30 && r == ResolveUsageRange(z, s, nowMs)
    ensures r.start >= Landing(z, LocalDay(z, nowMs), -29) / 1000
  {
    PresetIsLastDays(z, s, n, nowMs);
    LastDaysInWindow(z, n, nowMs, r);
  }

  lemma LastDaysInWindow(z: Zone, n: nat, nowMs: int, r: Range)
    requires IsZone(z) && 1 <= n <= 30 && r == LastDays(z, n, nowMs)
    ensures r.start >= Landing(z, LocalDay(z, nowMs), -29) / 1000
  {
    if n < 30 {
      EarlierLanding(z, LocalDay(z, nowMs), -29, 1 - n);
    }
  }

  lemma BlockedMeansEarlier(z: Zone, day: int, nowMs: int)
    requires IsZone(z)
    ensures IsBeforeFreeWindow(z, day, nowMs) <==> Start(z, day) < Landing(z, LocalDay(z, nowMs), -29)
  {
    FreeWindowLanding(z, nowMs);
    MakeDayAdds(DateOf(day), 0);
  }

  lemma EarlierStarts(z: Zone, d: int, m: int, day: int)
    requires IsZone(z)
    ensures Start(z, day) < Landing(z, d, m) <==> day < d + m || (day == d + m && !OpensTheDay(z, day, d))
  {
    ShiftLands(z, d, m);
    if day < d + m {
      StartsIncrease(z, day, d + m);
    } else if d + m < day {
      StartsIncrease(z, d + m + 1, day);
    }
  }

  /**
   The picker blocks exactly the days before the window, and also its first day when
   today began later on the clock than that day did.
   */
  lemma BlockedDaysExactly(z: Zone, day: int, nowMs: int)
    requires IsZone(z)
    ensures var first := LocalDay(z, nowMs) - 29;
            IsBeforeFreeWindow(z, day, nowMs) <==>
            day < first || (day == first && !OpensTheDay(z, first, LocalDay(z, nowMs)))
  {
    BlockedMeansEarlier(z, day, nowMs);
    EarlierStarts(z, LocalDay(z, nowMs), -29, day);
  }

  // ---------- the dates a range covers ----------

  /** Some instant of the half-open range falls on the day. */
  ghost predicate Touches(z: Zone, r: Range, d: int)
    requires IsZone(z)
  {
    exists t :: r.start * 1000 <= t < r.end * 1000 && LocalDay(z, t) == d
  }

  predicate Spans(z: Zone, r: Range, first: int, last: int) {
    && first <= last && r.start < r.end
    && OnDay(z, r.start * 1000, first)
    && Start(z, last) < r.end * 1000 <= Start(z, last + 1)
  }

  lemma TouchesWithin(z: Zone, r: Range, first: int, last: int, d: int)
    requires IsZone(z) && Spans(z, r, first, last) && first <= d <= last
    ensures Touches(z, r, d)
  {
    var t := if d == first then r.start * 1000 else Start(z, d);
    if d > first {
      StartsIncrease(z, first + 1, d);
    }
    DayLength(z, d);
    StartsIncrease(z, d, last);
    DayIsUnique(z, t, d);
    assert r.start * 1000 <= t < r.end * 1000;
  }

  lemma BeforeStart(z: Zone, t: int, d: int, n: int)
    requires IsZone(z) && OnDay(z, t, d) && t < Start(z, n)
    ensures d < n
  {
    if n <= d {
      StartsIncrease(z, n, d);
    }
  }

  lemma TouchesOnlyWithin(z: Zone, r: Range, first: int, last: int, d: int)
    requires IsZone(z) && Spans(z, r, first, last) && Touches(z, r, d)
    ensures first <= d <= last
  {
    var t :| r.start * 1000 <= t < r.end * 1000 && LocalDay(z, t) == d;
    BeforeStart(z, r.start * 1000, first, d + 1);
    BeforeStart(z, t, d, last + 1);
  }

  /** A range from one day up to within another touches exactly the days from one to the other. */
  lemma CoversDays(z: Zone, r: Range, first: int, last: int)
    requires IsZone(z) && Spans(z, r, first, last)
    ensures forall d :: Touches(z, r, d) <==> first <= d <= last
  {
    forall d ensures Touches(z, r, d) <==> first <= d <= last {
      if first <= d <= last {
        TouchesWithin(z, r, first, last, d);
      }
      if Touches(z, r, d) {
        TouchesOnlyWithin(z, r, first, last, d);
      }
    }
  }

  /** A range from the day `first` up to the current second. */
  lemma LiveRangeSpans(z: Zone, start: int, nowMs: int, first: int)
    requires IsZone(z) && start % 1000 == 0 && OnDay(z, start, first) && first <= LocalDay(z, nowMs)
    requires start <= nowMs
    ensures Spans(z, Range(start / 1000, nowMs / 1000 + 1), first, LocalDay(z, nowMs))
    ensures start / 1000 <= nowMs / 1000
  {
    var today := LocalDay(z, nowMs);
    DayLength(z, today);
    DayLength(z, today + 1);
    ExactSecond(start);
    WholeSeconds(Start(z, today), nowMs, Start(z, today + 1));
  }

  lemma LastDaysSpan(z: Zone, n: int, nowMs: int)
    requires IsZone(z) && n > 0
    ensures var r, today := LastDays(z, n, nowMs), LocalDay(z, nowMs);
            r.start <= nowMs / 1000 < r.end && Spans(z, r, today + 1 - n, today)
  {
    var today := LocalDay(z, nowMs);
    ShiftLands(z, today, 1 - n);
    LandsByToday(z, today, 1 - n);
    LiveRangeSpans(z, Landing(z, today, 1 - n), nowMs, today + 1 - n);
  }

  lemma LandsByToday(z: Zone, today: int, n: int)
    requires IsZone(z) && n <= 0
    ensures Landing(z, today, n) <= Start(z, today)
  {
    ShiftLands(z, today, n);
    if n < 0 {
      StartsIncrease(z, today + n + 1, today);
    }
  }

  /** The range contains the current second and touches exactly the last n local days. */
  ghost predicate CoversLast(z: Zone, r: Range, n: int, nowMs: int)
    requires IsZone(z)
  {
    && r.start <= nowMs / 1000 < r.end
    && forall d :: Touches(z, r, d) <==> LocalDay(z, nowMs) - n < d <= LocalDay(z, nowMs)
  }

  lemma LastDaysCover(z: Zone, n: int, nowMs: int, r: Range)
    requires IsZone(z) && n > 0 && r == LastDays(z, n, nowMs)
    ensures CoversLast(z, r, n, nowMs)
  {
    var today := LocalDay(z, nowMs);
    LastDaysSpan(z, n, nowMs);
    CoversDays(z, r, today + 1 - n, today);
  }

  /** A calendar preset of n days covers exactly the last n local dates, today included. */
  lemma PresetCoversItsDates(z: Zone, s: Selection, n: nat, nowMs: int)
    requires IsZone(z) && IsDays(s.preset, n)
    ensures CoversLast(z, ResolveUsageRange(z, s, nowMs), n, nowMs)
  {
    PresetIsLastDays(z, s, n, nowMs);
    LastDaysCover(z, n, nowMs, ResolveUsageRange(z, s, nowMs));
  }

  /** The first date of a preset is found by walking back through the calendar. */
  lemma PresetStartsOnItsDate(z: Zone, s: Selection, n: nat, nowMs: int)
    requires IsZone(z) && IsDays(s.preset, n)
    ensures var first := ResolveUsageRange(z, s, nowMs).start * 1000;
            DateOf(LocalDay(z, first)) == Back(DateOf(LocalDay(z, nowMs)), n - 1)
  {
    PresetIsLastDays(z, s, n, nowMs);
    LastDaysStart(z, n, nowMs);
  }

  lemma FirstOfLastDays(z: Zone, n: int, nowMs: int)
    requires IsZone(z) && n > 0
    ensures LocalDay(z, LastDays(z, n, nowMs).start * 1000) == LocalDay(z, nowMs) - (n - 1)
  {
    LastDaysSpan(z, n, nowMs);
    DayIsUnique(z, LastDays(z, n, nowMs).start * 1000, LocalDay(z, nowMs) - (n - 1));
  }

  lemma LastDaysStart(z: Zone, n: int, nowMs: int)
    requires IsZone(z) && n > 0
    ensures DateOf(LocalDay(z, LastDays(z, n, nowMs).start * 1000)) == Back(DateOf(LocalDay(z, nowMs)), n - 1)
  {
    FirstOfLastDays(z, n, nowMs);
    DateBack(LocalDay(z, nowMs), n - 1, LocalDay(z, LastDays(z, n, nowMs).start * 1000));
  }

  lemma ExactSecond(t: int)
    requires t % 1000 == 0
    ensures t / 1000 * 1000 == t
    ensures forall u: int :: t <= u ==> t / 1000 <= u / 1000
  {
  }

  /** Rounding an instant down and up to seconds stays within whole-second bounds. */
  lemma WholeSeconds(low: int, t: int, high: int)
    requires low % 1000 == 0 && high % 1000 == 0 && low <= t < high
    ensures low <= t / 1000 * 1000 <= t < (t / 1000 + 1) * 1000 <= high
  {
  }

  /**
   The activity range covers exactly the last 365 local dates, unless today began later
   on the clock than tomorrow will: then it reaches into tomorrow.
   */
  lemma ActivityCoversItsDates(z: Zone, nowMs: int)
    requires IsZone(z)
    ensures var r, today := ResolveProviderActivityRange(z, nowMs), LocalDay(z, nowMs);
            forall d :: Touches(z, r, d) <==>
                        today - 364 <= d <= today + if OpensTheDay(z, today + 1, today) then 0 else 1
  {
    var r, today := ResolveProviderActivityRange(z, nowMs), LocalDay(z, nowMs);
    ActivityIs(z, nowMs);
    ActivitySpans(z, today, r);
    CoversDays(z, r, today - 364, today + if OpensTheDay(z, today + 1, today) then 0 else 1);
  }

  lemma ActivityIs(z: Zone, nowMs: int)
    requires IsZone(z)
    ensures var today := LocalDay(z, nowMs);
            ResolveProviderActivityRange(z, nowMs) == Range(Landing(z, today, -364) / 1000, Landing(z, today, 1) / 1000)
  {
    var today := LocalDay(z, nowMs);
    ShiftsByDays(z, today, -364);
    ShiftsByDays(z, today, 1);
  }

  lemma ActivitySpans(z: Zone, today: int, r: Range)
    requires IsZone(z) && r == Range(Landing(z, today, -364) / 1000, Landing(z, today, 1) / 1000)
    ensures Spans(z, r, today - 364, today + if OpensTheDay(z, today + 1, today) then 0 else 1)
  {
    ShiftLands(z, today, -364);
    ShiftLands(z, today, 1);
    DayLength(z, today);
    DayLength(z, today + 1);
    EarlierLanding(z, today, -364, 0);
  }

  // ---------- the seconds a range contains ----------

  predicate InRange(r: Range, t: int) {
    r.start <= t < r.end
  }

  /** Second `t` is not before the instant. */
  predicate IsFrom(instant: int, t: int) {
    instant <= t * 1000
  }

  lemma FromWholeSecond(instant: int, t: int)
    requires instant % 1000 == 0
    ensures instant / 1000 <= t <==> IsFrom(instant, t)
  {
    ExactSecond(instant);
  }

  /**
   A custom range contains exactly the seconds from its start, or else from 86400 seconds
   before the end of the current one, up to its end, or else up to and including the current.
   */
  lemma CustomContainsExactly(z: Zone, s: Selection, nowMs: int, t: int)
    requires IsZone(z) && s.preset == Custom
    ensures InRange(ResolveUsageRange(z, s, nowMs), t) <==>
            && (match s.start case Some(start) => start <= t case None => nowMs / 1000 - 86400 < t)
            && (match s.end
                case Some(end) => if s.live then t <= nowMs / 1000 else t < end
                case None => t <= nowMs / 1000)
  {
  }

  /** And `1d` the 86400 seconds up to and including the current one. */
  lemma OneDayContainsExactly(z: Zone, s: Selection, nowMs: int, t: int)
    requires IsZone(z) && s.preset == OneDay
    ensures InRange(ResolveUsageRange(z, s, nowMs), t) <==> nowMs / 1000 - 86400 < t <= nowMs / 1000
  {
  }

  /**
   A calendar preset of n days contains exactly the seconds up to the current one from the
   time of its first day at which today began on the clock; that is all of the first day if
   that day began at the same time.
   */
  lemma PresetContainsExactly(z: Zone, s: Selection, n: nat, nowMs: int, t: int)
    requires IsZone(z) && IsDays(s.preset, n)
    ensures var today := LocalDay(z, nowMs);
            var first := today - (n - 1);
            && (InRange(ResolveUsageRange(z, s, nowMs), t) <==>
                 IsFrom(z.instant(first, z.opening(today)), t) && t <= nowMs / 1000)
            && (OpensTheDay(z, first, today) ==>
                 (InRange(ResolveUsageRange(z, s, nowMs), t) <==> IsFrom(Start(z, first), t) && t <= nowMs / 1000))
  {
    PresetIsLastDays(z, s, n, nowMs);
    LastDaysContain(z, n, nowMs, t, ResolveUsageRange(z, s, nowMs));
  }

  lemma LastDaysContain(z: Zone, n: nat, nowMs: int, t: int, r: Range)
    requires IsZone(z) && r == LastDays(z, n, nowMs)
    ensures var today := LocalDay(z, nowMs);
            var first := today - (n - 1);
            && (InRange(r, t) <==> IsFrom(z.instant(first, z.opening(today)), t) && t <= nowMs / 1000)
            && (OpensTheDay(z, first, today) ==> z.instant(first, z.opening(today)) == Start(z, first))
  {
    var today := LocalDay(z, nowMs);
    ShiftLands(z, today, 1 - n);
    FromWholeSecond(Landing(z, today, 1 - n), t);
  }

  /** The activity range contains the seconds from 364 days ago up to tomorrow, at that time of the clock. */
  lemma ActivityContainsExactly(z: Zone, nowMs: int, t: int)
    requires IsZone(z)
    ensures var today := LocalDay(z, nowMs);
            InRange(ResolveProviderActivityRange(z, nowMs), t) <==>
            IsFrom(z.instant(today - 364, z.opening(today)), t)
            && !IsFrom(z.instant(today + 1, z.opening(today)), t)
  {
    var today := LocalDay(z, nowMs);
    ActivityIs(z, nowMs);
    ShiftLands(z, today, -364);
    ShiftLands(z, today, 1);
    FromWholeSecond(Landing(z, today, -364), t);
    FromWholeSecond(Landing(z, today, 1), t);
  }

  lemma WindowFrom(z: Zone, nowMs: int, t: int)
    requires IsZone(z)
    ensures FreeWindowStart(z, nowMs) / 1000 <= t <==> IsFrom(Landing(z, LocalDay(z, nowMs), -29), t)
  {
    FreeWindowLanding(z, nowMs);
    ShiftLands(z, LocalDay(z, nowMs), -29);
    FromWholeSecond(Landing(z, LocalDay(z, nowMs), -29), t);
  }

  /**
   Clamping keeps exactly the seconds of the selected range that lie in the free window,
   which begins 29 days before today at the time of the clock at which today began.
   */
  lemma ClampedIsIntersection(z: Zone, s: Selection, nowMs: int, t: int)
    requires IsZone(z)
    ensures var today := LocalDay(z, nowMs);
            InRange(ResolveUsageRange(z, ClampToFreeWindow(z, s, nowMs), nowMs), t) <==>
            InRange(ResolveUsageRange(z, s, nowMs), t) && IsFrom(z.instant(today - 29, z.opening(today)), t)
  {
    var today := LocalDay(z, nowMs);
    WindowFrom(z, nowMs, t);
    if s.preset == Custom {
      ClampedCustom(z, s, nowMs);
      if s.start.None? {
        FreeWindowLanding(z, nowMs);
        RecentIsInWindow(z, nowMs);
      }
    } else if s.preset == OneYear {
      YearContainsWindow(z, s, nowMs, t);
    } else {
      ClampedStartIsInWindow(z, s, nowMs);
    }
  }

  lemma ClampedCustom(z: Zone, s: Selection, nowMs: int)
    requires IsZone(z) && s.preset == Custom
    ensures var opens, clamped := FreeWindowStart(z, nowMs) / 1000, ClampToFreeWindow(z, s, nowMs);
            clamped == match s.start
                       case None => s
                       case Some(start) => s.(start := Some(if start < opens then opens else start))
  {
  }

  lemma YearContainsWindow(z: Zone, s: Selection, nowMs: int, t: int)
    requires IsZone(z) && s.preset == OneYear
    ensures InRange(ResolveUsageRange(z, Selection(ThirtyDays, None, None, false), nowMs), t) <==>
            InRange(ResolveUsageRange(z, s, nowMs), t) && IsFrom(Landing(z, LocalDay(z, nowMs), -29), t)
  {
    var month := Selection(ThirtyDays, None, None, false);
    PresetIsLastDays(z, s, 365, nowMs);
    PresetIsLastDays(z, month, 30, nowMs);
    LongerContains(z, nowMs, t, ResolveUsageRange(z, s, nowMs), ResolveUsageRange(z, month, nowMs));
  }

  lemma LongerContains(z: Zone, nowMs: int, t: int, year: Range, month: Range)
    requires IsZone(z) && year == LastDays(z, 365, nowMs) && month == LastDays(z, 30, nowMs)
    ensures InRange(month, t) <==> InRange(year, t) && IsFrom(Landing(z, LocalDay(z, nowMs), -29), t)
  {
    LastDaysContain(z, 365, nowMs, t, year);
    LastDaysContain(z, 30, nowMs, t, month);
    EarlierLanding(z, LocalDay(z, nowMs), -364, -29);
  }

  // ---------- zones ----------

  lemma DaysAreWholeSeconds(d: int)
    ensures (d * (24 * HOUR)) % 1000 == 0 && (d * (24 * HOUR) - HOUR) % 1000 == 0
  {
    assert d * (24 * HOUR) == 1000 * (d * 86_400);
    assert d * (24 * HOUR) - HOUR == 1000 * (d * 86_400 - 3_600);
  }

  /** Day 0 loses its first hour: its midnight is skipped. */
  function SkippingInstant(d: int, w: nat): int {
    if d == 0 then (if w < HOUR then w else w - HOUR)
    else if d < 0 then d * (24 * HOUR) + w
    else d * (24 * HOUR) - HOUR + w
  }

  function SkippingOpening(d: int): nat {
    if d == 0 then HOUR else 0
  }

  const SKIPS_MIDNIGHT := Zone(SkippingInstant, SkippingOpening)

  lemma SkippingAt(d: int, w: nat)
    requires w == 0 || w == HOUR
    ensures SkippingInstant(d, w) % 1000 == 0
    ensures SkippingInstant(d, 0) <= SkippingInstant(d, w) <= SkippingInstant(d, 0) + HOUR
    ensures SkippingInstant(d, w) == SkippingInstant(d, 0) <==> w == 0 || d == 0
    ensures 23 * HOUR <= SkippingInstant(d + 1, 0) - SkippingInstant(d, 0) <= 24 * HOUR
  {
    DaysAreWholeSeconds(d);
  }

  lemma RegularFrom(z: Zone, d: int, e: int, here: int, next: int, landing: int)
    requires Start(z, d) == here && Start(z, d + 1) == next && z.instant(d, z.opening(e)) == landing
    requires 23 * HOUR <= next - here <= 25 * HOUR && here <= landing <= here + HOUR
    requires here % 1000 == 0 && landing % 1000 == 0
    requires landing == here <==> OpensTheDay(z, d, e)
    ensures IsRegular(z, d, e)
  {
  }

  lemma SkippingIsRegular(d: int, e: int)
    ensures IsRegular(SKIPS_MIDNIGHT, d, e)
  {
    var w := SkippingOpening(e);
    SkippingAt(d, w);
    SkippingAt(d, 0);
    RegularFrom(SKIPS_MIDNIGHT, d, e, SkippingInstant(d, 0), SkippingInstant(d + 1, 0), SkippingInstant(d, w));
  }

  lemma SkippingIsAZone()
    ensures IsZone(SKIPS_MIDNIGHT)
    ensures OnDay(SKIPS_MIDNIGHT, HOUR, 0)
    ensures !OpensTheDay(SKIPS_MIDNIGHT, 1, 0) && !OpensTheDay(SKIPS_MIDNIGHT, -29, 0)
  {
    forall d, e ensures IsRegular(SKIPS_MIDNIGHT, d, e) {
      SkippingIsRegular(d, e);
    }
  }

  lemma ReachesTomorrow(z: Zone, nowMs: int, today: int)
    requires IsZone(z) && OnDay(z, nowMs, today) && !OpensTheDay(z, today + 1, today)
    ensures Touches(z, ResolveProviderActivityRange(z, nowMs), LocalDay(z, nowMs) + 1)
  {
    DayIsUnique(z, nowMs, today);
    TouchesTomorrow(z, nowMs, ResolveProviderActivityRange(z, nowMs));
  }

  lemma TouchesTomorrow(z: Zone, nowMs: int, r: Range)
    requires IsZone(z) && r == ResolveProviderActivityRange(z, nowMs)
    requires var today := LocalDay(z, nowMs); !OpensTheDay(z, today + 1, today)
    ensures Touches(z, r, LocalDay(z, nowMs) + 1)
  {
    ActivityCoversItsDates(z, nowMs);
  }

  /** There are zones and instants from which the activity range reaches into tomorrow. */
  lemma ActivityCanReachTomorrow() returns (z: Zone, nowMs: int)
    ensures IsZone(z) && Touches(z, ResolveProviderActivityRange(z, nowMs), LocalDay(z, nowMs) + 1)
  {
    z, nowMs := SKIPS_MIDNIGHT, HOUR;
    SkippingIsAZone();
    ReachesTomorrow(z, nowMs, 0);
  }

  lemma BlocksFirstDay(z: Zone, nowMs: int, today: int)
    requires IsZone(z) && OnDay(z, nowMs, today) && !OpensTheDay(z, today - 29, today)
    ensures IsBeforeFreeWindow(z, LocalDay(z, nowMs) - 29, nowMs)
  {
    DayIsUnique(z, nowMs, today);
    BlockedDaysExactly(z, today - 29, nowMs);
  }

  /** There are zones and instants at which the picker blocks the first day of the window. */
  lemma FirstDayCanBeBlocked() returns (z: Zone, nowMs: int)
    ensures IsZone(z) && IsBeforeFreeWindow(z, LocalDay(z, nowMs) - 29, nowMs)
  {
    z, nowMs := SKIPS_MIDNIGHT, HOUR;
    SkippingIsAZone();
    BlocksFirstDay(z, nowMs, 0);
  }
}
