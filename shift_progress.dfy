/**
 * The shift workload calculator: which shift is active, the three queries
 * it runs against the store, and the summary it derives from their rows.
 */
module ShiftProgress {
  import opened Wrappers
  import opened Aggregates
  import opened Store
  import opened Percent
  import opened Joins

  const DAY: string := "day"
  const NIGHT: string := "night"

  /** An hour of the local clock, as `datetime.hour` reports it. */
  type Hour = h: int | 0 <= h < 24

  /** The active shift: day on the closed-open interval [06:00, 18:00), night otherwise. */
  function CurrentShift(hour: Hour): (shift: string)
    ensures shift == DAY <==> 6 <= hour < 18
    ensures shift == NIGHT <==> !(6 <= hour < 18)
  {
    if 6 <= hour < 18 then DAY else NIGHT
  }

  /** The boundary hours: 6 opens the day shift, 18 opens the night shift. */
  lemma ShiftBoundaries()
    ensures CurrentShift(6) == DAY && CurrentShift(12) == DAY && CurrentShift(17) == DAY
    ensures CurrentShift(18) == NIGHT && CurrentShift(23) == NIGHT
    ensures CurrentShift(0) == NIGHT && CurrentShift(5) == NIGHT
  {
  }

  /** Both shifts are twelve-hour windows that together cover the clock. */
  lemma TwelveHourShifts()
    ensures |set h: int | 0 <= h < 24 && CurrentShift(h) == DAY| == 12
    ensures |set h: int | 0 <= h < 24 && CurrentShift(h) == NIGHT| == 12
  {
    var day := set h: int | 0 <= h < 24 && CurrentShift(h) == DAY;
    var night := set h: int | 0 <= h < 24 && CurrentShift(h) == NIGHT;
    SplitClock(day, night, 0, 6, 18, 24);
  }

  /** The set arithmetic behind `TwelveHourShifts`, on symbolic bounds. */
  lemma SplitClock(day: set<int>, night: set<int>, lo: int, a: int, b: int, hi: int)
    requires lo <= a <= b <= hi
    requires forall h :: h in day <==> a <= h < b
    requires forall h :: h in night <==> (lo <= h < a || b <= h < hi)
    ensures |day| == b - a && |night| == (a - lo) + (hi - b)
  {
    var left, right := HourRange(lo, a), HourRange(b, hi);
    assert day == HourRange(a, b);
    assert night == left + right;
    assert left * right == {};
  }

  /** The hours `lo, lo + 1, ..., hi - 1`. */
  function HourRange(lo: int, hi: int): (r: set<int>)
    ensures forall h :: h in r <==> lo <= h < hi
    ensures lo <= hi ==> |r| == hi - lo
    decreases hi - lo
  {
    if lo >= hi then {} else HourRange(lo, hi - 1) + {hi - 1}
  }

  // ---------------------------------------------------------------------
  // Query 1: vehicle statistics for the shift and arrival date.

  datatype VehicleStats = VehicleStats(totalVehicles: int, totalHours: real, completedVehicles: int)

  /** `WHERE shift_assigned = shift AND DATE(arrival_time) = date`. */
  function OnShift(shift: string, date: string): Vehicle -> bool {
    (v: Vehicle) => v.shiftAssigned == shift && v.arrivalDate == date
  }

  function IsDelivered(v: Vehicle): bool {
    v.status == DELIVERED
  }

  function LaborHours(v: Vehicle): real {
    v.estimatedLaborHours
  }

  /**
   * `COUNT(*)`, `COALESCE(SUM(estimated_labor_hours), 0)` and the count of
   * delivered vehicles over the vehicles of the shift. An aggregate without
   * GROUP BY yields exactly one row, so the query always has a result.
   */
  function VehicleStatsQuery(db: Database, shift: string, date: string): (r: VehicleStats)
    ensures 0 <= r.completedVehicles <= r.totalVehicles <= |db.vehicles|
    ensures r.totalVehicles == Count(db.vehicles, OnShift(shift, date))
    ensures r.totalHours == Sum(db.vehicles, MaskedBy(OnShift(shift, date), LaborHours))
    ensures r.completedVehicles == Count(db.vehicles, Both(OnShift(shift, date), IsDelivered))
  {
    var on := Filter(db.vehicles, OnShift(shift, date));
    SumFilter(db.vehicles, OnShift(shift, date), LaborHours);
    CountFilter(db.vehicles, OnShift(shift, date), IsDelivered);
    VehicleStats(|on|, Sum(on, LaborHours), Count(on, IsDelivered))
  }

  // ---------------------------------------------------------------------
  // Query 2: actual hours on complete work orders of the shift's vehicles.

  datatype CompletedStats = CompletedStats(completedHours: real)

  /**
   * `COALESCE(SUM(actual_hours), 0)` over `work_orders JOIN vehicles ON
   * wo.vehicle_id = v.id` restricted to the shift's vehicles and complete
   * orders. It is evaluated vehicle by vehicle; the first `ensures` says that
   * this is the sum over the rows of the join itself.
   */
  function CompletedHoursQuery(db: Database, shift: string, date: string): (r: CompletedStats)
    ensures r.completedHours == Sum(InnerJoin(Filter(db.vehicles, OnShift(shift, date)), db.workOrders), CompletedHours)
    ensures Count(db.vehicles, OnShift(shift, date)) == 0 ==> r.completedHours == 0.0
  {
    var on := Filter(db.vehicles, OnShift(shift, date));
    InnerJoinSums(on, db.workOrders);
    CompletedStats(Sum(on, VehicleCompleted(db.workOrders)))
  }

  /** With non-negative hour columns both hour aggregates are non-negative. */
  lemma QueryHoursNonNegative(db: Database, shift: string, date: string)
    requires HoursNonNegative(db)
    ensures VehicleStatsQuery(db, shift, date).totalHours >= 0.0
    ensures CompletedHoursQuery(db, shift, date).completedHours >= 0.0
  {
    var on := Filter(db.vehicles, OnShift(shift, date));
    forall i | 0 <= i < |on| ensures LaborHours(on[i]) >= 0.0 && VehicleCompleted(db.workOrders)(on[i]) >= 0.0 {
      assert on[i] in db.vehicles;
    }
  }

  // ---------------------------------------------------------------------
  // Query 3: the carryover recorded for the (date, shift) pair.

  datatype CarryoverStats = CarryoverStats(carryoverHours: real)

  /** `WHERE shift_date = date AND shift_type = shift`. */
  predicate IsSummaryFor(s: ShiftSummary, date: string, shift: string) {
    s.shiftDate == date && s.shiftType == shift
  }

  /** `summaries[i]` is a summary of the pair and no summary of the pair is more recent. */
  predicate IsLatest(summaries: seq<ShiftSummary>, i: int, date: string, shift: string)
    requires 0 <= i < |summaries|
  {
    && IsSummaryFor(summaries[i], date, shift)
    && forall j :: 0 <= j < |summaries| && IsSummaryFor(summaries[j], date, shift) ==>
         summaries[j].createdAt <= summaries[i].createdAt
  }

  /**
   * `ORDER BY created_at DESC LIMIT 1` over the summaries of the pair: a
   * most recently created one; among equally recent ones, the first in
   * table order.
   */
  function LatestSummary(summaries: seq<ShiftSummary>, date: string, shift: string): (r: Option<ShiftSummary>)
    ensures r.None? <==> forall i :: 0 <= i < |summaries| ==> !IsSummaryFor(summaries[i], date, shift)
    ensures r.Some? ==> r.value in summaries && IsSummaryFor(r.value, date, shift)
    ensures r.Some? ==> forall i :: 0 <= i < |summaries| && IsSummaryFor(summaries[i], date, shift) ==>
                          summaries[i].createdAt <= r.value.createdAt
  {
    if summaries == [] then None
    else
      var rest := LatestSummary(summaries[1..], date, shift);
      assert forall i :: 1 <= i < |summaries| ==> summaries[i] == summaries[1..][i - 1];
      if !IsSummaryFor(summaries[0], date, shift) then rest
      else if rest.None? || rest.value.createdAt <= summaries[0].createdAt then Some(summaries[0])
      else rest
  }

  /**
   * The carryover query: no row when the pair has no summary, otherwise
   * `COALESCE(carryover_hours, 0)` of the latest one.
   */
  function CarryoverQuery(db: Database, date: string, shift: string): (r: Option<CarryoverStats>)
    ensures r.None? <==> forall i :: 0 <= i < |db.summaries| ==> !IsSummaryFor(db.summaries[i], date, shift)
    ensures r.Some? ==> exists i :: 0 <= i < |db.summaries| && IsLatest(db.summaries, i, date, shift)
                          && r.value.carryoverHours == db.summaries[i].carryoverHours.GetOr(0.0)
    ensures r.Some? && HoursNonNegative(db) ==> r.value.carryoverHours >= 0.0
  {
    match LatestSummary(db.summaries, date, shift)
    case None => None
    case Some(s) => Some(CarryoverStats(s.carryoverHours.GetOr(0.0)))
  }

  // ---------------------------------------------------------------------
  // The calculator.

  /** The per-shift summary handed to the display. */
  datatype Workload = Workload(
    shift: string,
    date: string,
    newHours: real,
    carryoverHours: real,
    totalHours: real,
    completedHours: real,
    percentComplete: int,
    vehiclesTotal: int,
    vehiclesCompleted: int)

  /**
   * The derivation from the three query results, each of which may be
   * absent: an absent row stands for zeros.
   */
  function CalculateWorkload(
    shift: string, date: string,
    vehicleStats: Option<VehicleStats>,
    completedStats: Option<CompletedStats>,
    carryoverStats: Option<CarryoverStats>): (w: Workload)
    ensures w.shift == shift && w.date == date
    ensures vehicleStats.None? ==> w.newHours == 0.0 && w.vehiclesTotal == 0 && w.vehiclesCompleted == 0
    ensures vehicleStats.Some? ==>
      && w.newHours == vehicleStats.value.totalHours
      && w.vehiclesTotal == vehicleStats.value.totalVehicles
      && w.vehiclesCompleted == vehicleStats.value.completedVehicles
    ensures completedStats.None? ==> w.completedHours == 0.0
    ensures completedStats.Some? ==> w.completedHours == completedStats.value.completedHours
    ensures carryoverStats.None? ==> w.carryoverHours == 0.0 && w.totalHours == w.newHours
    ensures carryoverStats.Some? ==> w.carryoverHours == carryoverStats.value.carryoverHours
    ensures w.totalHours == w.newHours + w.carryoverHours
    ensures w.totalHours <= 0.0 ==> w.percentComplete == 0
    ensures w.totalHours > 0.0 ==> w.percentComplete == Trunc(w.completedHours / w.totalHours * 100.0)
  {
    var stats := vehicleStats.GetOr(VehicleStats(0, 0.0, 0));
    var completedHours := if completedStats.Some? then completedStats.value.completedHours else 0.0;
    var carryoverHours := if carryoverStats.Some? then carryoverStats.value.carryoverHours else 0.0;
    var newHours := stats.totalHours;
    var totalHours := newHours + carryoverHours;
    Workload(shift, date, newHours, carryoverHours, totalHours, completedHours,
             PercentComplete(completedHours, totalHours),
             stats.totalVehicles, stats.completedVehicles)
  }

  /** The workload of a shift and date, from the three queries against `db`. */
  function ShiftWorkload(db: Database, shift: string, date: string): (w: Workload)
    ensures 0 <= w.vehiclesCompleted <= w.vehiclesTotal
    ensures w.vehiclesTotal == Count(db.vehicles, OnShift(shift, date))
    ensures w.totalHours == w.newHours + w.carryoverHours
    ensures (forall i :: 0 <= i < |db.summaries| ==> !IsSummaryFor(db.summaries[i], date, shift))
            ==> w.carryoverHours == 0.0 && w.totalHours == w.newHours
  {
    CalculateWorkload(shift, date,
      Some(VehicleStatsQuery(db, shift, date)),
      Some(CompletedHoursQuery(db, shift, date)),
      CarryoverQuery(db, date, shift))
  }

  /**
   * `calculate_shift_workload(shift, target_date)`: an omitted shift is
   * resolved from the clock's hour, an omitted date is today's.
   */
  function CalculateShiftWorkload(
    shiftArg: Option<string>, dateArg: Option<string>,
    hour: Hour, today: string, db: Database): (w: Workload)
    ensures shiftArg.Some? ==> w.shift == shiftArg.value
    ensures shiftArg.None? ==> (w.shift == DAY <==> 6 <= hour < 18) && (w.shift == NIGHT <==> !(6 <= hour < 18))
    ensures dateArg.Some? ==> w.date == dateArg.value
    ensures dateArg.None? ==> w.date == today
    ensures w == ShiftWorkload(db, w.shift, w.date)
  {
    var shift := if shiftArg.Some? then shiftArg.value else CurrentShift(hour);
    var date := if dateArg.Some? then dateArg.value else today;
    ShiftWorkload(db, shift, date)
  }

  /** With non-negative hour columns, every figure of the workload is non-negative. */
  lemma WorkloadNonNegative(db: Database, shift: string, date: string)
    requires HoursNonNegative(db)
    ensures var w := ShiftWorkload(db, shift, date);
      w.newHours >= 0.0 && w.carryoverHours >= 0.0 && w.totalHours >= 0.0
      && w.completedHours >= 0.0 && w.percentComplete >= 0
  {
    QueryHoursNonNegative(db, shift, date);
  }

  /** All three queries returning no row gives an all-zero summary. */
  lemma NoRowsGiveZeros(shift: string, date: string)
    ensures var w := CalculateWorkload(shift, date, None, None, None);
      && w.newHours == 0.0 && w.carryoverHours == 0.0 && w.totalHours == 0.0
      && w.completedHours == 0.0 && w.percentComplete == 0
      && w.vehiclesTotal == 0 && w.vehiclesCompleted == 0
  {
  }

  /** An empty store gives the same all-zero summary through the queries. */
  lemma EmptyStoreGivesZeros(shift: string, date: string)
    ensures var w := ShiftWorkload(Database([], [], [], []), shift, date);
      && w.newHours == 0.0 && w.carryoverHours == 0.0 && w.totalHours == 0.0
      && w.completedHours == 0.0 && w.percentComplete == 0
      && w.vehiclesTotal == 0 && w.vehiclesCompleted == 0
  {
  }

  /** Zero vehicle hours, zero completed hours and no carryover: 0 percent. */
  lemma ZeroTotalHours(date: string)
    ensures CalculateWorkload(DAY, date, Some(VehicleStats(0, 0.0, 0)), Some(CompletedStats(0.0)), None)
              .percentComplete == 0
  {
  }

  /** 100 new hours and 20 carryover hours make 120; 50 of them done is 41 percent. */
  lemma WithCarryover(date: string)
    ensures var w := CalculateWorkload(DAY, date, Some(VehicleStats(10, 100.0, 5)),
                                       Some(CompletedStats(50.0)), Some(CarryoverStats(20.0)));
      && w.newHours == 100.0 && w.carryoverHours == 20.0 && w.totalHours == 120.0
      && w.percentComplete == 41 && w.vehiclesTotal == 10 && w.vehiclesCompleted == 5
  {
    PercentCompleteCharacterised(50.0, 120.0, 41);
  }

  /**
   * Nothing bounds the percentage by 100: actual hours beyond the estimate
   * push it past. One vehicle estimated at 10 hours whose complete work
   * order took 15 shows 150 percent.
   */
  lemma OverrunExceedsHundred()
    ensures ShiftWorkload(OverrunStore(), DAY, "2026-01-16").percentComplete == 150
  {
    var db := OverrunStore();
    var v := db.vehicles[0];
    assert Filter(db.vehicles, OnShift(DAY, "2026-01-16")) == [v];
    assert Sum(db.workOrders, ClosedActual(v)) == 15.0;
    PercentCompleteCharacterised(15.0, 10.0, 150);
  }

  function OverrunStore(): Database {
    Database(
      [Vehicle(1, "2026-01-16", DAY, 10.0, "in_progress", None)],
      [WorkOrder(1, COMPLETE, 10.0, 15.0)],
      [],
      [])
  }

  // ---------------------------------------------------------------------
  // Sample data for environments without a store.

  /** `get_demo_data`: a fixed summary labelled with the current shift and date. */
  function DemoData(hour: Hour, today: string): (w: Workload)
    ensures w.shift == CurrentShift(hour) && w.date == today
  {
    Workload(CurrentShift(hour), today, 126.0, 6.0, 132.0, 87.0, 65, 48, 32)
  }

  /** The sample obeys the calculator's rules: 126 + 6 = 132 and 87 of 132 is 65 percent. */
  lemma DemoDataConsistent(hour: Hour, today: string)
    ensures var w := DemoData(hour, today);
      && w.totalHours == w.newHours + w.carryoverHours
      && w.percentComplete == PercentComplete(w.completedHours, w.totalHours)
      && 0 <= w.percentComplete <= 100
      && w.vehiclesCompleted <= w.vehiclesTotal
      && (w.shift == DAY || w.shift == NIGHT)
      && w.date == today
  {
    PercentCompleteCharacterised(87.0, 132.0, 65);
  }
}
