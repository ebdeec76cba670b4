# Shift progress dashboard metrics, in Dafny

A model of the metrics core of a large-screen production dashboard for a
vehicle-processing operation. The core turns work-tracking records
(vehicles, work orders, production stages and shift summaries) into two
results:

- a **workload summary** for one shift and date: new hours, carryover hours,
  total hours, completed hours, a truncated percentage complete and the
  vehicle counts;
- a **stage breakdown**: one row per production stage, in catalogue order,
  with a vehicle count, remaining and completed hours and a percentage.

It also models the display rules that read these results: the progress bar's
colour class, the refresh-interval arithmetic, the shift header and the
carryover note, and the choice between live and sample data.

Files:

- `wrappers.dfy` — `Option`, for SQL NULLs, absent query rows and omitted arguments.
- `aggregates.dfy` — `Sum`, `Count` and `Filter` over rows (SQL `SUM`, `COUNT`, `WHERE`) and their lemmas.
- `store.dfy` — the table rows the queries read, and the non-negative-hours predicate.
- `joins.dfy` — rows of the `work_orders` join and the per-row and per-vehicle hour figures that both modules sum.
- `percent.dfy` — Python's `int()` as truncation and the division-safe percentage rule.
- `shift_progress.dfy` — the shift rule, the three workload queries, the calculator and the sample summary.
- `stage_breakdown.dfy` — the stage query as an explicit left outer join with COUNT and SUM, the in-place percentage loop over an array, and the sample stages.
- `app.dfy` — the display rules.

Hours are `real`, not IEEE floats. Each SQL query is modelled by what it
computes over in-memory sequences of rows, not by its text. The clock's hour,
today's ISO date and the configured refresh minutes are parameters.

Two properties that the program's field names and display suggest do not hold in general:

- The field `vehicle_count` suggests a number of vehicles per stage. The query
  computes `COUNT(v.id)` after `LEFT JOIN work_orders`, so it counts joined rows: a
  vehicle contributes max(1, its number of work orders). This is shown by
  `StageBreakdown.AggregateStageByVehicle`, `StageBreakdown.JoinWeightVersusVehicles`
  and `StageBreakdown.JoinedRowsCounted`.
- The workload percentage is drawn as the progress bar's width
  (`width: {percent_complete}%`, app.py:220), which suggests a value from 0 to 100.
  The code does not clamp it: actual hours above the estimates give more than 100
  (`ShiftProgress.OverrunExceedsHundred`). The stage percentages need no clamp: with
  non-negative hours, completed ≤ remaining + completed, so each lies in 0..100
  (`StageBreakdown.BreakdownPercentInRange`). `Percent.PercentComplete` states the
  0..100 bound for completed hours that do not exceed the total.

## Model

| member | source | states |
|---|---|---|
| `Aggregates.Sum` | modules/shift_progress.py:44 | the empty sum is 0 (the `COALESCE(SUM(..), 0)` default); a sum of non-negative terms is non-negative |
| `Aggregates.Count` | modules/shift_progress.py:43 | `COUNT` never exceeds the number of rows |
| `Aggregates.Filter` | modules/shift_progress.py:47-48 | `WHERE` keeps exactly the rows that satisfy the condition, as many as `Count` counts |
| `Aggregates.FilterMultiplicity` | modules/shift_progress.py:47-48 | `WHERE` keeps each satisfying row as many times as the table holds it and drops every other row |
| `Aggregates.SumFilter` | modules/shift_progress.py:44-48 | `SUM` over `WHERE p` equals the sum over the whole table of the figure masked to 0 where `p` fails |
| `Aggregates.CountFilter` | modules/shift_progress.py:45-48 | counting a condition over `WHERE p` equals counting `p AND` that condition over the whole table |
| `Percent.Trunc` | modules/shift_progress.py:82-84 | `int()` truncates toward zero: within one below a non-negative value, within one above a negative one |
| `Percent.PercentComplete` | modules/shift_progress.py:82-84 | 0 whenever the total is not positive; non-negative for non-negative completed hours; within 0..100 when completed hours do not exceed the total |
| `Percent.PercentCompleteCharacterised` | modules/shift_progress.py:82-84 | division-free characterisation of the truncated percentage, in both directions: it is k exactly when k·total ≤ completed·100 < (k+1)·total |
| `ShiftProgress.CurrentShift` | modules/shift_progress.py:7-11 | the shift is "day" exactly when 6 ≤ hour < 18, and "night" exactly otherwise |
| `ShiftProgress.ShiftBoundaries` | tests/test_shift_progress.py:21-55 | hours 6, 12 and 17 are day; 18, 23, 0 and 5 are night |
| `ShiftProgress.TwelveHourShifts` | modules/shift_progress.py:10-11 | each shift covers exactly 12 of the 24 clock hours |
| `ShiftProgress.OnShift` | modules/shift_progress.py:47-48 | definition of the WHERE condition of query 1 (shift and arrival date); what the query computes with it is stated by `ShiftProgress.VehicleStatsQuery` |
| `ShiftProgress.VehicleStatsQuery` | modules/shift_progress.py:41-50 | over the whole table: the vehicle count is the number of vehicles of the shift and arrival date, the hours are the sum of their estimated labour hours, and the completed count is the number of them that are delivered; delivered ≤ total ≤ number of vehicles in the table |
| `ShiftProgress.IsDelivered` | modules/shift_progress.py:45 | definition of `status = 'delivered'`; `ShiftProgress.VehicleStatsQuery` states the count it gives |
| `ShiftProgress.CompletedHoursQuery` | modules/shift_progress.py:56-64 | the completed hours are the sum, over the rows of `work_orders JOIN vehicles` for the shift's vehicles, of the actual hours of complete orders; no vehicle on the shift and date gives 0 |
| `ShiftProgress.QueryHoursNonNegative` | modules/shift_progress.py:44-57 | with non-negative hour columns, the vehicle hours and the completed hours are non-negative |
| `ShiftProgress.IsSummaryFor` | modules/shift_progress.py:71-72 | definition of query 3's WHERE condition (shift date and shift type); `ShiftProgress.LatestSummary` and `ShiftProgress.CarryoverQuery` state what is selected with it |
| `ShiftProgress.LatestSummary` | modules/shift_progress.py:68-75 | no result exactly when the (date, shift) pair has no summary; otherwise a summary of the pair that no summary of the pair is more recent than |
| `ShiftProgress.CarryoverQuery` | modules/shift_progress.py:68-77 | no row exactly when the pair has no summary; otherwise the COALESCE'd carryover of a latest summary of the pair, non-negative for non-negative data |
| `ShiftProgress.CalculateWorkload` | modules/shift_progress.py:50-96 | absent rows default to zero; shift, date and vehicle counts pass through; total = new + carryover; no carryover row gives total = new; percent is 0 for a non-positive total and the truncated share otherwise |
| `ShiftProgress.ShiftWorkload` | modules/shift_progress.py:41-96 | from the store: completed vehicles ≤ total vehicles; total = new + carryover; no summary for the pair gives carryover 0 and total = new |
| `ShiftProgress.CalculateShiftWorkload` | modules/shift_progress.py:33-38 | an explicit shift or date is kept; an omitted shift follows the hour rule; an omitted date is today |
| `ShiftProgress.WorkloadNonNegative` | modules/shift_progress.py:79-84 | with non-negative hour columns every hour figure and the percentage are non-negative |
| `ShiftProgress.NoRowsGiveZeros` | tests/test_shift_progress.py:113-122 | all three queries without a row give all-zero hours, counts and percentage |
| `ShiftProgress.EmptyStoreGivesZeros` | modules/shift_progress.py:41-84 | an empty store gives all-zero hours, counts and percentage |
| `ShiftProgress.ZeroTotalHours` | tests/test_shift_progress.py:124-135 | zero vehicle hours, zero completed hours and no carryover give 0 percent |
| `ShiftProgress.WithCarryover` | tests/test_shift_progress.py:137-150 | 100 new + 20 carryover = 120 total; 50 completed hours give 41 percent |
| `ShiftProgress.OverrunExceedsHundred` | modules/shift_progress.py:82-84 | actual hours above the estimate give a percentage above 100 (150 for 15 of 10) |
| `ShiftProgress.DemoData` | modules/shift_progress.py:99-111 | the sample's shift is the clock's shift and its date is today; the other figures are fixed |
| `ShiftProgress.DemoDataConsistent` | modules/shift_progress.py:99-111 | the sample has total = new + carryover (126 + 6 = 132), percent = trunc(87/132·100) = 65, completed ≤ total vehicles, shift day or night and today's date |
| `StageBreakdown.SortByOrder` | modules/stage_breakdown.py:47 | the catalogue reordered: sorted by stage order and a permutation of the input |
| `Joins.OrderRows` | modules/stage_breakdown.py:45 | the matched part of the work order join has one row per work order of the vehicle, in table order, the i-th row pairing the vehicle with its i-th order |
| `Joins.BelongsTo` | modules/stage_breakdown.py:45 | definition of the work order join condition `wo.vehicle_id = v.id` (also modules/shift_progress.py:59); `Joins.OrderRows` and `Joins.InnerJoinMultiplicity` state which rows it lets through |
| `Joins.RemainingHours` | modules/stage_breakdown.py:31-35 | definition of the remaining-hours CASE term (estimate of an order that is not complete, 0 otherwise and for a NULL order); `StageBreakdown.AggregateStageByVehicle` states its sum per stage |
| `Joins.CompletedHours` | modules/stage_breakdown.py:36-40 | definition of the completed-hours CASE term (actual hours of a complete order, 0 otherwise and for a NULL order), also the figure query 2 sums (modules/shift_progress.py:57, 62); `ShiftProgress.CompletedHoursQuery` and `StageBreakdown.AggregateStageByVehicle` state its sums |
| `Joins.InnerJoin` | modules/shift_progress.py:58-62 | the inner join of the vehicles with their work orders: every row pairs one of the given vehicles with one of the orders whose `vehicle_id` is that vehicle's id |
| `Joins.OrderRowsMultiplicity` | modules/stage_breakdown.py:45 | the join for one vehicle holds a (vehicle, order) pair once per copy of the order when the order is the vehicle's, and never otherwise |
| `Joins.InnerJoinMultiplicity` | modules/shift_progress.py:58-59 | the inner join holds each (vehicle, order) pair (copies of the vehicle) × (copies of the order) times when `vehicle_id` matches, and never otherwise: each matching pair exactly once for distinct rows |
| `Joins.InnerJoinComplete` | modules/shift_progress.py:58-59 | every matching pair of a given vehicle and a work order is a row of the inner join |
| `Joins.VehicleFiguresNonNegative` | modules/stage_breakdown.py:31-40 | with non-negative hour columns a vehicle's remaining and completed hours are non-negative |
| `Joins.InnerJoinSums` | modules/shift_progress.py:56-62 | summing a per-row figure over the inner join equals summing each vehicle's figure over the vehicles |
| `StageBreakdown.VehicleJoin` | modules/stage_breakdown.py:45 | the outer join for one vehicle: a single row with a NULL order when the vehicle has no work order, and otherwise one row per work order of the vehicle, in table order, the i-th row pairing the vehicle with its i-th order |
| `StageBreakdown.InStage` | modules/stage_breakdown.py:42-44 | definition of the vehicle ON condition (stage, date, optional shift); `StageBreakdown.NonMatchingVehicleIgnored` states that a vehicle failing it does not change the stage's row |
| `StageBreakdown.VehiclesJoin` | modules/stage_breakdown.py:41-45 | the outer join for several vehicles has as many rows as their join weights add to; every row carries one of the vehicles, and its order is NULL exactly when that vehicle has no work order and otherwise one of that vehicle's orders |
| `StageBreakdown.VehicleJoinMultiplicity` | modules/stage_breakdown.py:45 | the outer join for one vehicle holds its NULL-order row once exactly when it has no work order, and each of its orders once per copy in the table |
| `StageBreakdown.VehiclesJoinMultiplicity` | modules/stage_breakdown.py:41-45 | the outer join for several vehicles holds each (vehicle, order column) pair once per copy of the vehicle times its multiplicity in that vehicle's own join |
| `StageBreakdown.StageJoin` | modules/stage_breakdown.py:41-45 | a stage always has at least one joined row; its rows are the single all-NULL row exactly when no vehicle matches; every vehicle in them is a matching vehicle of the table, with a NULL order exactly when it has no work order and otherwise one of its orders |
| `StageBreakdown.StageJoinMultiplicity` | modules/stage_breakdown.py:41-45 | a stage's rows hold each (vehicle, order column) pair as often as the vehicle occurs in the table if it meets the ON condition (0 times if not), times its multiplicity in its own outer join |
| `StageBreakdown.StageJoinCoversMatched` | modules/stage_breakdown.py:41-45 | every vehicle of the table that meets the stage's ON condition has a row in the stage's join |
| `StageBreakdown.HasVehicle` | modules/stage_breakdown.py:30 | definition of the non-NULL `v.id` test of `COUNT(v.id)`; `StageBreakdown.VehiclesJoinAggregates` states what it counts |
| `StageBreakdown.AggregateStage` | modules/stage_breakdown.py:27-46 | the aggregate row keeps the stage's name and order and has no percentage yet |
| `StageBreakdown.StageAggregates` | modules/stage_breakdown.py:26-50 | one row per catalogue stage, in non-decreasing stage order, each the aggregate of the stage at that position of the sorted catalogue |
| `StageBreakdown.VehiclesJoinAggregates` | modules/stage_breakdown.py:30-45 | COUNT(v.id) and the two COALESCE'd SUMs over the joined rows equal the per-vehicle join weight and hour sums |
| `StageBreakdown.AggregateStageByVehicle` | modules/stage_breakdown.py:30-45 | vehicle count = Σ over matching vehicles of max(1, work orders); remaining = their non-complete estimates; completed = their complete actuals |
| `StageBreakdown.EmptyStageIsZero` | modules/stage_breakdown.py:30-44 | a stage no vehicle matches has count 0 and both hour sums 0 |
| `StageBreakdown.JoinWeightVersusVehicles` | modules/stage_breakdown.py:30 | the joined-row count is at least the number of matching vehicles, and equal to it exactly when none has more than one work order |
| `StageBreakdown.NonMatchingVehicleIgnored` | modules/stage_breakdown.py:42-44 | appending a vehicle that fails the stage, date or shift condition to the table leaves the stage's row unchanged |
| `StageBreakdown.JoinedRowsCounted` | modules/stage_breakdown.py:30 | a vehicle with three work orders and one with none make a count of 4 |
| `StageBreakdown.WithPercent` | modules/stage_breakdown.py:54-55 | the row gains a percentage and nothing else changes; with non-negative hours it lies in 0..100 |
| `StageBreakdown.WithPercentages` | modules/stage_breakdown.py:53-55 | the loop's result keeps the length and order, each row being the input row with its percentage added |
| `StageBreakdown.WithPercentMeaning` | modules/stage_breakdown.py:53-55 | adding the percentage changes no other field; it is 0 for a non-positive total, the truncated share otherwise, and within 0..100 for non-negative sums |
| `StageBreakdown.EvenSplitIsFifty` | modules/stage_breakdown.py:54-55 | 18 remaining and 18 completed hours give 50 percent |
| `StageBreakdown.FillPercentages` | modules/stage_breakdown.py:53-55 | the in-place loop leaves the array equal to the input rows with their percentages added |
| `StageBreakdown.StageBreakdownOf` | modules/stage_breakdown.py:26-57 | one row per catalogue stage, in non-decreasing stage order, every row with a percentage |
| `StageBreakdown.GetStageBreakdown` | modules/stage_breakdown.py:50-57 | the query rows put in an array and run through the loop give the breakdown |
| `StageBreakdown.EveryStageAppears` | modules/stage_breakdown.py:41-47 | every catalogue stage has its row in the breakdown, even with no matching vehicle |
| `StageBreakdown.AggregateNonNegative` | modules/stage_breakdown.py:31-40 | with non-negative hour columns both hour sums of a stage are non-negative |
| `StageBreakdown.BreakdownPercentInRange` | modules/stage_breakdown.py:53-55 | with non-negative hour columns every stage percentage lies in 0..100 |
| `StageBreakdown.EmptyStageRow` | modules/stage_breakdown.py:30-55 | a stage no vehicle matches shows count 0, hours 0 and 0 percent |
| `StageBreakdown.DemoStages` | modules/stage_breakdown.py:60-95 | four sample stages with order keys 1, 2, 3, 4 in that order |
| `StageBreakdown.DemoStagesConsistent` | modules/stage_breakdown.py:60-95 | the sample is non-empty and ascending by order; each percentage is the loop's (24/36 gives 66) and in 0..100; counts and hours are non-negative; Installation, PPO and FQA are present |
| `App.ProgressClass` | app.py:137-143 | "progress-good" exactly from 60, "progress-warning" exactly on 40..59, "progress-behind" exactly below 40 |
| `App.ProgressClassMonotone` | app.py:137-143 | a higher percentage never gets a worse class |
| `App.FloorDiv` | app.py:170 | Python's `//` for a positive divisor: q·b ≤ a < (q+1)·b |
| `App.RefreshRoundTrip` | app.py:269-273 | the millisecond interval gives back the configured minutes (÷60000) and their seconds (÷1000) |
| `App.RefreshIntervalMs` | app.py:134 | the interval is a whole number of minutes in milliseconds: a multiple of 60000 whose quotient is the configured minutes |
| `App.DefaultRefresh` | app.py:133-134 | the default of 10 minutes is 600000 ms, a 600-second meta refresh and a 10-minute footer |
| `App.ShiftLabel` | app.py:178 | "Day Shift" exactly for "day", "Night Shift" for any other shift |
| `App.LoadData` | app.py:146-160 | no store gives the sample summary and stages; a store gives the workload of the clock's shift and today, and the breakdown for that same shift and today |
| `App.DashboardFollowsClock` | app.py:175-178 | whatever the store, the header says "Day Shift" exactly from 06:00 to before 18:00, and the stages come ordered with percentages |
| `App.ShowsCarryoverNote` | app.py:182 | definition of the note's condition (carryover hours above 0); `App.CarryoverNoteAddsUp` and `App.NoCarryoverRecordNoNote` state when it holds and what the note then shows |
| `App.CarryoverNoteAddsUp` | app.py:182-186 | when the note is shown for a computed workload, its total is the new plus the carryover hours and exceeds the new hours |
| `App.DemoDashboard` | app.py:181-182 | the sample shows a good bar (65 percent) and the carryover note |
| `App.NoCarryoverRecordNoNote` | app.py:181-182 | without a summary for the pair, the carryover note is not shown |

## Left out

- `modules/database.py` (connection, read-only mode, missing-file error, row-to-dict conversion) is not part of this model. A missing store is `None` in `App.LoadData`.
- SQL text, parsing and execution: the queries are modelled by the rows they produce.
- NULL values: only `carryover_hours` is nullable in the model, because its query coalesces that column itself. Other columns are taken as non-NULL, and `status` is never NULL.
- Tie order: rows with equal `stage_order` keep their table order, and among summaries with the same `created_at` the first in table order is taken. SQL leaves both orders unspecified.
- Duplicate stage ids: the model gives one row per catalogue entry. With a primary-key `id`, that is what `GROUP BY ps.id` gives.
- `DATE(arrival_time)` and `date.isoformat()`: dates are ISO strings given as parameters, and vehicles carry their arrival date.
- Clock reads (`datetime.now()`, `date.today()`) are parameters. `load_data` reads the clock more than once, and the model uses one hour and one date for all of those reads.
- Reading `REFRESH_INTERVAL_MINUTES` and `DATABASE_PATH` from the environment: the minutes are a parameter with default 10.
- `load_data` catches any exception. The model only covers an unavailable store; a query that fails some other way is not modelled.
- IEEE-754 float rounding: hours are exact reals, so a product such as 0.29·100 truncates as an exact value, not as a float.
- All Streamlit rendering: CSS, HTML, the column layout, `:.0f` formatting and the timestamp footer text.
