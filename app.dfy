/**
 * The display rules of the dashboard: the progress bar's colour class, the
 * refresh interval arithmetic, the shift header and the carryover note, and
 * the choice between live and sample data.
 */
module App {
  import opened Wrappers
  import opened Store
  import ShiftProgress
  import StageBreakdown

  const PROGRESS_GOOD: string := "progress-good"
  const PROGRESS_WARNING: string := "progress-warning"
  const PROGRESS_BEHIND: string := "progress-behind"

  /** The progress bar's class: good from 60 percent, warning from 40, behind below. */
  function ProgressClass(percent: int): (c: string)
    ensures c == PROGRESS_GOOD <==> percent >= 60
    ensures c == PROGRESS_WARNING <==> 40 <= percent < 60
    ensures c == PROGRESS_BEHIND <==> percent < 40
  {
    if percent >= 60 then PROGRESS_GOOD
    else if percent >= 40 then PROGRESS_WARNING
    else PROGRESS_BEHIND
  }

  /** How far along a class is: behind 0, warning 1, good 2. */
  function ClassRank(c: string): int {
    if c == PROGRESS_GOOD then 2 else if c == PROGRESS_WARNING then 1 else 0
  }

  /** More progress never shows a worse class. */
  lemma ProgressClassMonotone(p: int, q: int)
    requires p <= q
    ensures ClassRank(ProgressClass(p)) <= ClassRank(ProgressClass(q))
  {
  }

  /** The default of the configured refresh interval, in minutes. */
  const DEFAULT_REFRESH_MINUTES: int := 10

  /** `REFRESH_INTERVAL_MS`: the configured minutes in milliseconds. */
  function RefreshIntervalMs(minutes: int): (ms: int)
    ensures ms % 60000 == 0 && ms / 60000 == minutes
  {
    minutes * 60 * 1000
  }

  /** Python's `a // b` for a positive divisor: the floor of the quotient. */
  function FloorDiv(a: int, b: int): (q: int)
    requires b > 0
    ensures q * b <= a < (q + 1) * b
  {
    a / b
  }

  /**
   * The interval shown in the page's meta refresh (seconds) and in the
   * footer (minutes) gives back the configured figures.
   */
  lemma RefreshRoundTrip(minutes: int)
    ensures FloorDiv(RefreshIntervalMs(minutes), 60000) == minutes
    ensures FloorDiv(RefreshIntervalMs(minutes), 1000) == minutes * 60
  {
    FloorDivExact(minutes, 60000);
    FloorDivExact(minutes * 60, 1000);
  }

  /** Dividing an exact multiple gives back the factor. */
  lemma FloorDivExact(k: int, b: int)
    requires b > 0
    ensures FloorDiv(k * b, b) == k
  {
  }

  /** The refresh of a default configuration: every 600 seconds, shown as 10 minutes. */
  lemma DefaultRefresh()
    ensures RefreshIntervalMs(DEFAULT_REFRESH_MINUTES) == 600000
    ensures FloorDiv(RefreshIntervalMs(DEFAULT_REFRESH_MINUTES), 1000) == 600
    ensures FloorDiv(RefreshIntervalMs(DEFAULT_REFRESH_MINUTES), 60000) == 10
  {
    RefreshRoundTrip(DEFAULT_REFRESH_MINUTES);
  }

  /** The header names the day shift for `"day"` and the night shift for anything else. */
  function ShiftLabel(shift: string): (header: string)
    ensures header == "Day Shift" <==> shift == ShiftProgress.DAY
    ensures header == "Night Shift" <==> shift != ShiftProgress.DAY
  {
    if shift == ShiftProgress.DAY then "Day Shift" else "Night Shift"
  }

  /** Whether the carryover note is shown: only when there are carryover hours. */
  predicate ShowsCarryoverNote(w: ShiftProgress.Workload) {
    w.carryoverHours > 0.0
  }

  /**
   * The note reads "total (new + carryover)"; for a computed workload its
   * figures add up and the total exceeds the new hours.
   */
  lemma CarryoverNoteAddsUp(db: Database, shift: string, date: string)
    ensures var w := ShiftProgress.ShiftWorkload(db, shift, date);
      ShowsCarryoverNote(w) ==> w.totalHours == w.newHours + w.carryoverHours && w.totalHours > w.newHours
  {
  }

  /**
   * `load_data`: the live workload for the clock's shift and today, and the
   * stage breakdown for that same shift and today; the sample data when the
   * store is unavailable.
   */
  function LoadData(store: Option<Database>, hour: ShiftProgress.Hour, today: string)
    : (r: (ShiftProgress.Workload, seq<StageBreakdown.StageRow>))
    ensures store.None? ==> r == (ShiftProgress.DemoData(hour, today), StageBreakdown.DemoStages())
    ensures store.Some? ==>
      && r.0 == ShiftProgress.ShiftWorkload(store.value, ShiftProgress.CurrentShift(hour), today)
      && r.1 == StageBreakdown.StageBreakdownOf(store.value, Some(ShiftProgress.CurrentShift(hour)), today)
  {
    match store
    case None => (ShiftProgress.DemoData(hour, today), StageBreakdown.DemoStages())
    case Some(db) =>
      var w := ShiftProgress.CalculateShiftWorkload(None, None, hour, today, db);
      (w, StageBreakdown.StageBreakdownOf(db, Some(w.shift), today))
  }

  /**
   * Whatever the store, the header follows the clock: "Day Shift" exactly
   * from 06:00 until before 18:00; and the stage rows are ordered and carry
   * a percentage.
   */
  lemma DashboardFollowsClock(store: Option<Database>, hour: ShiftProgress.Hour, today: string)
    ensures var (w, stages) := LoadData(store, hour, today);
      && (ShiftLabel(w.shift) == "Day Shift" <==> 6 <= hour < 18)
      && (forall i, j :: 0 <= i < j < |stages| ==> stages[i].stageOrder <= stages[j].stageOrder)
      && (forall i :: 0 <= i < |stages| ==> stages[i].percentComplete.Some?)
  {
    if store.None? {
      StageBreakdown.DemoStagesConsistent();
    }
  }

  /** The sample dashboard shows a good bar (65 percent) and the 6-hour carryover note. */
  lemma DemoDashboard(hour: ShiftProgress.Hour, today: string)
    ensures ProgressClass(ShiftProgress.DemoData(hour, today).percentComplete) == PROGRESS_GOOD
    ensures ShowsCarryoverNote(ShiftProgress.DemoData(hour, today))
  {
  }

  /** Without a carryover record there is no carryover note. */
  lemma NoCarryoverRecordNoNote(db: Database, shift: string, date: string)
    requires forall i :: 0 <= i < |db.summaries| ==> !ShiftProgress.IsSummaryFor(db.summaries[i], date, shift)
    ensures !ShowsCarryoverNote(ShiftProgress.ShiftWorkload(db, shift, date))
  {
  }
}
