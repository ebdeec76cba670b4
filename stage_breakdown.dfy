/**
 * The stage breakdown: one row per production stage, in catalogue order,
 * aggregating the vehicles of the date (and shift) that currently sit in
 * the stage and the work orders joined to them, followed by the loop that
 * writes each row's percentage.
 */
module StageBreakdown {
  import opened Wrappers
  import opened Aggregates
  import opened Store
  import opened Percent
  import opened Joins

  /**
   * A result row. `percentComplete` is `None` until the percentage loop
   * adds it to the row.
   */
  datatype StageRow = StageRow(
    stageName: string,
    stageOrder: int,
    vehicleCount: int,
    hoursRemaining: real,
    hoursCompleted: real,
    percentComplete: Option<int>)

  // ---------------------------------------------------------------------
  // ORDER BY ps.stage_order

  predicate SortedByOrder(s: seq<ProductionStage>) {
    forall i, j :: 0 <= i < j < |s| ==> s[i].stageOrder <= s[j].stageOrder
  }

  function InsertByOrder(st: ProductionStage, s: seq<ProductionStage>): (r: seq<ProductionStage>)
    requires SortedByOrder(s)
    ensures SortedByOrder(r)
    ensures multiset(r) == multiset(s) + multiset{st}
  {
    if s == [] then [st]
    else if st.stageOrder <= s[0].stageOrder then [st] + s
    else
      var rest := InsertByOrder(st, s[1..]);
      assert s == [s[0]] + s[1..];
      HeadBoundsInsert(st, s, rest);
      [s[0]] + rest
  }

  /** Every element of the insertion into `s[1..]` has a key no smaller than `s[0]`'s. */
  lemma HeadBoundsInsert(st: ProductionStage, s: seq<ProductionStage>, rest: seq<ProductionStage>)
    requires SortedByOrder(s) && s != [] && s[0].stageOrder < st.stageOrder
    requires multiset(rest) == multiset(s[1..]) + multiset{st}
    ensures forall i :: 0 <= i < |rest| ==> s[0].stageOrder <= rest[i].stageOrder
  {
    forall i | 0 <= i < |rest| ensures s[0].stageOrder <= rest[i].stageOrder {
      assert rest[i] in multiset(rest);
      if rest[i] != st {
        assert rest[i] in multiset(s[1..]);
        var k :| 0 <= k < |s[1..]| && s[1..][k] == rest[i];
        assert s[k + 1] == rest[i];
      }
    }
  }

  /** The catalogue sorted by ordering key; equal keys keep their table order. */
  function SortByOrder(s: seq<ProductionStage>): (r: seq<ProductionStage>)
    ensures SortedByOrder(r)
    ensures multiset(r) == multiset(s)
    ensures |r| == |s|
  {
    if s == [] then []
    else
      assert s == [s[0]] + s[1..];
      InsertByOrder(s[0], SortByOrder(s[1..]))
  }

  // ---------------------------------------------------------------------
  // The stage catalogue, outer-joined with the date's (and shift's) vehicles
  // in each stage and with their work orders.

  /** The vehicle join condition; an absent shift does not filter by shift. */
  function InStage(stage: ProductionStage, shift: Option<string>, date: string): Vehicle -> bool {
    (v: Vehicle) =>
      v.currentStageId == Some(stage.id) && v.arrivalDate == date
      && (shift.None? || v.shiftAssigned == shift.value)
  }

  /** The outer join for one vehicle: its order rows, or one row whose order is NULL. */
  function VehicleJoin(v: Vehicle, orders: seq<WorkOrder>): (rows: seq<JoinedRow>)
    ensures |rows| == JoinWeight(v, orders)
    ensures forall i :: 0 <= i < |rows| ==> rows[i].vehicle == Some(v)
    ensures forall i :: 0 <= i < |rows| ==> (rows[i].order.None? <==> Count(orders, BelongsTo(v)) == 0)
    ensures forall i :: 0 <= i < |rows| && rows[i].order.Some? ==>
      rows[i].order.value in orders && rows[i].order.value.vehicleId == v.id
    ensures Count(orders, BelongsTo(v)) == 0 ==> rows == [JoinedRow(Some(v), None)]
    ensures Count(orders, BelongsTo(v)) > 0 ==>
      forall i :: 0 <= i < |rows| ==> rows[i] == JoinedRow(Some(v), Some(Filter(orders, BelongsTo(v))[i]))
  {
    var r := OrderRows(v, orders);
    if r == [] then [JoinedRow(Some(v), None)] else r
  }

  /**
   * A row of the outer join over `orders`: it carries a vehicle, its order
   * is NULL exactly when the vehicle has no work order, and otherwise is one
   * of that vehicle's orders.
   */
  predicate OuterJoinRow(r: JoinedRow, orders: seq<WorkOrder>) {
    && r.vehicle.Some?
    && (r.order.None? <==> Count(orders, BelongsTo(r.vehicle.value)) == 0)
    && (r.order.Some? ==> r.order.value in orders && r.order.value.vehicleId == r.vehicle.value.id)
  }

  /** The outer join for a list of vehicles, in table order. */
  function VehiclesJoin(vs: seq<Vehicle>, orders: seq<WorkOrder>): (rows: seq<JoinedRow>)
    ensures |rows| == TotalJoinWeight(vs, orders)
    ensures forall i :: 0 <= i < |rows| ==> rows[i].vehicle.Some? && rows[i].vehicle.value in vs
    ensures forall i :: 0 <= i < |rows| ==> OuterJoinRow(rows[i], orders)
  {
    if vs == [] then [] else VehicleJoin(vs[0], orders) + VehiclesJoin(vs[1..], orders)
  }

  /** The vehicles of the date (and shift) currently in `stage`. */
  function Matched(stage: ProductionStage, db: Database, shift: Option<string>, date: string): seq<Vehicle> {
    Filter(db.vehicles, InStage(stage, shift, date))
  }

  /** All joined rows of one stage: a single all-NULL row when no vehicle matches. */
  function StageJoin(stage: ProductionStage, db: Database, shift: Option<string>, date: string): (rows: seq<JoinedRow>)
    ensures |rows| >= 1
    ensures rows == [JoinedRow(None, None)] <==> Count(db.vehicles, InStage(stage, shift, date)) == 0
    ensures forall i :: 0 <= i < |rows| && rows[i].vehicle.Some? ==>
      rows[i].vehicle.value in db.vehicles && InStage(stage, shift, date)(rows[i].vehicle.value)
    ensures forall i :: 0 <= i < |rows| && rows[i].vehicle.Some? ==> OuterJoinRow(rows[i], db.workOrders)
  {
    var matched := Matched(stage, db, shift, date);
    if matched == [] then [JoinedRow(None, None)]
    else
      var rows := VehiclesJoin(matched, db.workOrders);
      assert TotalJoinWeight(matched, db.workOrders) >= JoinWeight(matched[0], db.workOrders) >= 1;
      assert rows[0].vehicle.Some?;
      rows
  }

  /**
   * How many rows of the outer join over `orders` one copy of vehicle `u`
   * makes with order column `o`: one NULL row when it has no order, and
   * otherwise a row per copy of each of its orders.
   */
  function PairMultiplicity(u: Vehicle, o: Option<WorkOrder>, orders: seq<WorkOrder>): nat {
    match o
    case None => if Count(orders, BelongsTo(u)) == 0 then 1 else 0
    case Some(wo) => if wo.vehicleId == u.id then multiset(orders)[wo] else 0
  }

  lemma VehicleJoinMultiplicity(v: Vehicle, orders: seq<WorkOrder>, o: Option<WorkOrder>)
    ensures multiset(VehicleJoin(v, orders))[JoinedRow(Some(v), o)] == PairMultiplicity(v, o, orders)
  {
    var row := JoinedRow(Some(v), o);
    if o.Some? {
      OrderRowsMultiplicity(v, orders, o.value);
      if Count(orders, BelongsTo(v)) == 0 {
        assert OrderRows(v, orders) == [];
      }
    } else if Count(orders, BelongsTo(v)) > 0 {
      assert row !in VehicleJoin(v, orders);
    }
  }

  /** The outer join holds each (vehicle, order) pair once per copy of the vehicle, as its own join does. */
  lemma {:induction false} VehiclesJoinMultiplicity(vs: seq<Vehicle>, orders: seq<WorkOrder>, u: Vehicle, o: Option<WorkOrder>)
    ensures multiset(VehiclesJoin(vs, orders))[JoinedRow(Some(u), o)] == multiset(vs)[u] * PairMultiplicity(u, o, orders)
  {
    if vs != [] {
      var row := JoinedRow(Some(u), o);
      var h, t := VehicleJoin(vs[0], orders), VehiclesJoin(vs[1..], orders);
      var c, m := PairMultiplicity(u, o, orders), multiset(vs[1..])[u];
      MultiplicityConcat(h, t, row);
      MultiplicityCons(vs, u);
      VehiclesJoinMultiplicity(vs[1..], orders, u, o);
      if vs[0] == u {
        VehicleJoinMultiplicity(u, orders, o);
        AddOneTimes(m, c);
      } else {
        assert row !in h;
      }
    }
  }

  /**
   * The stage's rows hold each (vehicle, order) pair as often as the outer
   * join of the matching vehicles of the table makes it: a vehicle that
   * fails the ON condition has no row.
   */
  lemma StageJoinMultiplicity(stage: ProductionStage, db: Database, shift: Option<string>, date: string,
                              u: Vehicle, o: Option<WorkOrder>)
    ensures multiset(StageJoin(stage, db, shift, date))[JoinedRow(Some(u), o)]
         == (if InStage(stage, shift, date)(u) then multiset(db.vehicles)[u] else 0)
            * PairMultiplicity(u, o, db.workOrders)
  {
    var matched := Matched(stage, db, shift, date);
    var k := if InStage(stage, shift, date)(u) then multiset(db.vehicles)[u] else 0;
    assert multiset(matched)[u] == k by {
      if u in db.vehicles {
        FilterMultiplicity(db.vehicles, InStage(stage, shift, date));
      } else {
        assert u !in matched;
      }
    }
    if matched == [] {
      assert JoinedRow(Some(u), o) !in StageJoin(stage, db, shift, date);
    } else {
      VehiclesJoinMultiplicity(matched, db.workOrders, u, o);
    }
  }

  /** Every vehicle of the table that meets the ON condition has a row in its stage. */
  lemma StageJoinCoversMatched(stage: ProductionStage, db: Database, shift: Option<string>, date: string, v: Vehicle)
    requires v in db.vehicles && InStage(stage, shift, date)(v)
    ensures exists o :: JoinedRow(Some(v), o) in StageJoin(stage, db, shift, date)
  {
    var mine := Filter(db.workOrders, BelongsTo(v));
    var o := if |mine| == 0 then None else Some(mine[0]);
    StageJoinMultiplicity(stage, db, shift, date, v, o);
    assert PairMultiplicity(v, o, db.workOrders) >= 1;
    PositiveProduct(multiset(db.vehicles)[v], PairMultiplicity(v, o, db.workOrders));
  }

  /** `v.id` is not NULL: the row counts for `COUNT(v.id)`. */
  function HasVehicle(r: JoinedRow): bool {
    r.vehicle.Some?
  }

  /** The aggregate row of one stage (`GROUP BY ps.id`), before its percentage is added. */
  function AggregateStage(stage: ProductionStage, db: Database, shift: Option<string>, date: string): (row: StageRow)
    ensures row.stageName == stage.stageName && row.stageOrder == stage.stageOrder
    ensures row.percentComplete.None?
  {
    var rows := StageJoin(stage, db, shift, date);
    StageRow(stage.stageName, stage.stageOrder,
             Count(rows, HasVehicle), Sum(rows, RemainingHours), Sum(rows, CompletedHours), None)
  }

  /** The rows the query returns: one per catalogue stage, ordered by `stage_order`. */
  function StageAggregates(db: Database, shift: Option<string>, date: string): (rows: seq<StageRow>)
    ensures |rows| == |db.stages|
    ensures forall i, j :: 0 <= i < j < |rows| ==> rows[i].stageOrder <= rows[j].stageOrder
    ensures forall i :: 0 <= i < |rows| ==> rows[i] == AggregateStage(SortByOrder(db.stages)[i], db, shift, date)
  {
    var ordered := SortByOrder(db.stages);
    seq(|ordered|, i requires 0 <= i < |ordered| => AggregateStage(ordered[i], db, shift, date))
  }

  // ---------------------------------------------------------------------
  // What the aggregates amount to, vehicle by vehicle.

  /** The number of joined rows a vehicle produces: max(1, its number of work orders). */
  function JoinWeight(v: Vehicle, orders: seq<WorkOrder>): nat {
    var n := Count(orders, BelongsTo(v));
    if n == 0 then 1 else n
  }

  /** The sum of the join weights of `vs`. */
  function TotalJoinWeight(vs: seq<Vehicle>, orders: seq<WorkOrder>): nat {
    if vs == [] then 0 else JoinWeight(vs[0], orders) + TotalJoinWeight(vs[1..], orders)
  }

  /** One vehicle's joined rows sum to its per-vehicle figures and count its join weight. */
  lemma VehicleJoinAggregates(v: Vehicle, orders: seq<WorkOrder>)
    ensures Count(VehicleJoin(v, orders), HasVehicle) == JoinWeight(v, orders)
    ensures Sum(VehicleJoin(v, orders), RemainingHours) == VehicleRemaining(orders)(v)
    ensures Sum(VehicleJoin(v, orders), CompletedHours) == VehicleCompleted(orders)(v)
  {
    CountAll(VehicleJoin(v, orders), HasVehicle);
    OrderRowsSums(v, orders);
  }

  lemma {:induction false} VehiclesJoinAggregates(vs: seq<Vehicle>, orders: seq<WorkOrder>)
    ensures Count(VehiclesJoin(vs, orders), HasVehicle) == TotalJoinWeight(vs, orders)
    ensures Sum(VehiclesJoin(vs, orders), RemainingHours) == Sum(vs, VehicleRemaining(orders))
    ensures Sum(VehiclesJoin(vs, orders), CompletedHours) == Sum(vs, VehicleCompleted(orders))
  {
    if vs != [] {
      var head, tail := VehicleJoin(vs[0], orders), VehiclesJoin(vs[1..], orders);
      CountConcat(head, tail, HasVehicle);
      SumConcat(head, tail, RemainingHours);
      SumConcat(head, tail, CompletedHours);
      VehicleJoinAggregates(vs[0], orders);
      VehiclesJoinAggregates(vs[1..], orders);
    }
  }

  /**
   * The aggregate row of a stage, vehicle by vehicle: `vehicle_count` adds up
   * max(1, work orders) over the matching vehicles (joined rows, not distinct
   * vehicles), `hours_remaining` their open estimates and `hours_completed`
   * their complete actuals.
   */
  lemma AggregateStageByVehicle(stage: ProductionStage, db: Database, shift: Option<string>, date: string)
    ensures var row, matched := AggregateStage(stage, db, shift, date), Matched(stage, db, shift, date);
      && row.vehicleCount == TotalJoinWeight(matched, db.workOrders)
      && row.hoursRemaining == Sum(matched, VehicleRemaining(db.workOrders))
      && row.hoursCompleted == Sum(matched, VehicleCompleted(db.workOrders))
  {
    VehiclesJoinAggregates(Matched(stage, db, shift, date), db.workOrders);
  }

  /** A stage no vehicle matches still has its row, with a zero count and zero hours. */
  lemma EmptyStageIsZero(stage: ProductionStage, db: Database, shift: Option<string>, date: string)
    requires Count(db.vehicles, InStage(stage, shift, date)) == 0
    ensures var row := AggregateStage(stage, db, shift, date);
      row.vehicleCount == 0 && row.hoursRemaining == 0.0 && row.hoursCompleted == 0.0
  {
    var rows := StageJoin(stage, db, shift, date);
    assert rows == [JoinedRow(None, None)];
    assert rows[1..] == [];
    assert Sum(rows, RemainingHours) == RemainingHours(rows[0]) + Sum(rows[1..], RemainingHours);
    assert Sum(rows, CompletedHours) == CompletedHours(rows[0]) + Sum(rows[1..], CompletedHours);
  }

  /**
   * The join weight is at least the number of matching vehicles, and equals
   * it exactly when no matching vehicle has more than one work order.
   */
  lemma {:induction false} JoinWeightVersusVehicles(vs: seq<Vehicle>, orders: seq<WorkOrder>)
    ensures TotalJoinWeight(vs, orders) >= |vs|
    ensures TotalJoinWeight(vs, orders) == |vs|
        <==> forall i :: 0 <= i < |vs| ==> Count(orders, BelongsTo(vs[i])) <= 1
  {
    if vs != [] {
      JoinWeightVersusVehicles(vs[1..], orders);
      assert forall i :: 1 <= i < |vs| ==> vs[i] == vs[1..][i - 1];
    }
  }

  /** A vehicle outside the stage's date, shift or stage changes nothing in that stage's row. */
  lemma NonMatchingVehicleIgnored(stage: ProductionStage, db: Database, shift: Option<string>, date: string, v: Vehicle)
    requires !InStage(stage, shift, date)(v)
    ensures AggregateStage(stage, db.(vehicles := db.vehicles + [v]), shift, date)
         == AggregateStage(stage, db, shift, date)
  {
    FilterAppendRejected(db.vehicles, v, InStage(stage, shift, date));
  }

  /**
   * `COUNT(v.id)` after the work order join counts joined rows: one vehicle
   * with three work orders makes a count of 3, one with none a count of 1.
   */
  lemma JoinedRowsCounted()
    ensures AggregateStage(ProductionStage(1, "PPO", 2), TwoVehicleStore(), None, "2026-01-16").vehicleCount == 4
  {
    var db, stage := TwoVehicleStore(), ProductionStage(1, "PPO", 2);
    var busy, idle := db.vehicles[0], db.vehicles[1];
    assert Matched(stage, db, None, "2026-01-16") == [busy, idle];
    var wos := db.workOrders;
    assert wos[1..][1..][1..] == [];
    assert Count(wos[1..][1..], BelongsTo(busy)) == 1 && Count(wos[1..][1..], BelongsTo(idle)) == 0;
    assert Count(wos[1..], BelongsTo(busy)) == 2 && Count(wos[1..], BelongsTo(idle)) == 0;
    assert Count(wos, BelongsTo(busy)) == 3 && Count(wos, BelongsTo(idle)) == 0;
    AggregateStageByVehicle(stage, db, None, "2026-01-16");
  }

  function TwoVehicleStore(): Database {
    Database(
      [ Vehicle(7, "2026-01-16", "day", 9.0, "in_progress", Some(1)),
        Vehicle(8, "2026-01-16", "night", 4.0, "in_progress", Some(1)) ],
      [ WorkOrder(7, COMPLETE, 3.0, 3.0),
        WorkOrder(7, "open", 3.0, 0.0),
        WorkOrder(7, "open", 3.0, 0.0) ],
      [ProductionStage(1, "PPO", 2)],
      [])
  }

  // ---------------------------------------------------------------------
  // The percentage loop.

  /** The row with `percent_complete` added from its two hour sums. */
  function WithPercent(row: StageRow): (r: StageRow)
    ensures r.percentComplete.Some?
    ensures r.(percentComplete := row.percentComplete) == row
    ensures row.hoursRemaining >= 0.0 && row.hoursCompleted >= 0.0 ==> 0 <= r.percentComplete.value <= 100
  {
    row.(percentComplete := Some(PercentComplete(row.hoursCompleted, row.hoursRemaining + row.hoursCompleted)))
  }

  /** Every row with its percentage added; length and order are kept. */
  function WithPercentages(rows: seq<StageRow>): (r: seq<StageRow>)
    ensures |r| == |rows|
    ensures forall i :: 0 <= i < |r| ==> r[i] == WithPercent(rows[i])
  {
    seq(|rows|, i requires 0 <= i < |rows| => WithPercent(rows[i]))
  }

  /**
   * Adding the percentage keeps every other field, and the percentage is the
   * truncated share of completed hours in remaining plus completed, or 0 when
   * that total is not positive; with non-negative sums it lies in 0..100.
   */
  lemma WithPercentMeaning(row: StageRow)
    ensures var r := WithPercent(row);
      && r.stageName == row.stageName && r.stageOrder == row.stageOrder
      && r.vehicleCount == row.vehicleCount
      && r.hoursRemaining == row.hoursRemaining && r.hoursCompleted == row.hoursCompleted
      && r.percentComplete.Some?
      && (row.hoursRemaining + row.hoursCompleted <= 0.0 ==> r.percentComplete.value == 0)
      && (row.hoursRemaining + row.hoursCompleted > 0.0 ==>
            r.percentComplete.value
              == Trunc(row.hoursCompleted / (row.hoursRemaining + row.hoursCompleted) * 100.0))
      && (row.hoursRemaining >= 0.0 && row.hoursCompleted >= 0.0 ==> 0 <= r.percentComplete.value <= 100)
  {
  }

  /** Equal remaining and completed hours (18 and 18) give 50 percent. */
  lemma EvenSplitIsFifty(row: StageRow)
    requires row.hoursRemaining == 18.0 && row.hoursCompleted == 18.0
    ensures WithPercent(row).percentComplete == Some(50)
  {
    PercentCompleteCharacterised(18.0, 36.0, 50);
  }

  /** `for row in results: row['percent_complete'] = ...`, in place. */
  method FillPercentages(rows: array<StageRow>)
    modifies rows
    ensures rows[..] == WithPercentages(old(rows[..]))
  {
    var i := 0;
    while i < rows.Length
      invariant 0 <= i <= rows.Length
      invariant forall k :: 0 <= k < i ==> rows[k] == WithPercent(old(rows[k]))
      invariant forall k :: i <= k < rows.Length ==> rows[k] == old(rows[k])
    {
      var row := rows[i];
      var total := row.hoursRemaining + row.hoursCompleted;
      rows[i] := row.(percentComplete := Some(PercentComplete(row.hoursCompleted, total)));
      i := i + 1;
    }
  }

  /** What `get_stage_breakdown` returns. */
  function StageBreakdownOf(db: Database, shift: Option<string>, date: string): (rows: seq<StageRow>)
    ensures |rows| == |db.stages|
    ensures forall i, j :: 0 <= i < j < |rows| ==> rows[i].stageOrder <= rows[j].stageOrder
    ensures forall i :: 0 <= i < |rows| ==> rows[i].percentComplete.Some?
  {
    WithPercentages(StageAggregates(db, shift, date))
  }

  /** `get_stage_breakdown(shift, target_date)` with the date already resolved. */
  method GetStageBreakdown(db: Database, shift: Option<string>, date: string) returns (result: seq<StageRow>)
    ensures result == StageBreakdownOf(db, shift, date)
  {
    var aggregates := StageAggregates(db, shift, date);
    var rows := new StageRow[|aggregates|](i requires 0 <= i < |aggregates| => aggregates[i]);
    assert rows[..] == aggregates;
    FillPercentages(rows);
    result := rows[..];
  }

  /** Every catalogue stage has its row in the breakdown. */
  lemma EveryStageAppears(db: Database, shift: Option<string>, date: string, stage: ProductionStage)
    requires stage in db.stages
    ensures exists i :: 0 <= i < |StageBreakdownOf(db, shift, date)|
              && StageBreakdownOf(db, shift, date)[i] == WithPercent(AggregateStage(stage, db, shift, date))
  {
    var ordered := SortByOrder(db.stages);
    assert stage in multiset(db.stages);
    assert stage in multiset(ordered);
    var i :| 0 <= i < |ordered| && ordered[i] == stage;
    assert StageBreakdownOf(db, shift, date)[i] == WithPercent(AggregateStage(stage, db, shift, date));
  }

  /** With non-negative hour columns each stage's hour sums are non-negative. */
  lemma AggregateNonNegative(stage: ProductionStage, db: Database, shift: Option<string>, date: string)
    requires HoursNonNegative(db)
    ensures AggregateStage(stage, db, shift, date).hoursRemaining >= 0.0
    ensures AggregateStage(stage, db, shift, date).hoursCompleted >= 0.0
  {
    var matched := Matched(stage, db, shift, date);
    AggregateStageByVehicle(stage, db, shift, date);
    forall i | 0 <= i < |matched|
      ensures VehicleRemaining(db.workOrders)(matched[i]) >= 0.0
      ensures VehicleCompleted(db.workOrders)(matched[i]) >= 0.0
    {
      VehicleFiguresNonNegative(matched[i], db.workOrders);
    }
  }

  /** With non-negative hour columns every stage's percentage lies in 0..100. */
  lemma BreakdownPercentInRange(db: Database, shift: Option<string>, date: string)
    requires HoursNonNegative(db)
    ensures forall i :: 0 <= i < |StageBreakdownOf(db, shift, date)| ==>
              0 <= StageBreakdownOf(db, shift, date)[i].percentComplete.value <= 100
  {
    var ordered := SortByOrder(db.stages);
    forall i | 0 <= i < |ordered|
      ensures 0 <= StageBreakdownOf(db, shift, date)[i].percentComplete.value <= 100
    {
      AggregateNonNegative(ordered[i], db, shift, date);
    }
  }

  /** A stage no vehicle matches shows 0 vehicles, 0 hours and 0 percent. */
  lemma EmptyStageRow(stage: ProductionStage, db: Database, shift: Option<string>, date: string)
    requires Count(db.vehicles, InStage(stage, shift, date)) == 0
    ensures WithPercent(AggregateStage(stage, db, shift, date))
        == StageRow(stage.stageName, stage.stageOrder, 0, 0.0, 0.0, Some(0))
  {
    EmptyStageIsZero(stage, db, shift, date);
  }

  // ---------------------------------------------------------------------
  // Sample data for environments without a store.

  /** `get_demo_stages`: a fixed breakdown of four stages. */
  function DemoStages(): (stages: seq<StageRow>)
    ensures |stages| == 4
    ensures forall i :: 0 <= i < |stages| ==> stages[i].stageOrder == i + 1
  {
    [ StageRow("Installation", 1, 12, 18.5, 42.0, Some(69)),
      StageRow("PPO", 2, 8, 12.0, 24.0, Some(66)),
      StageRow("Shuttle", 3, 6, 3.0, 9.0, Some(75)),
      StageRow("FQA", 4, 10, 8.0, 12.0, Some(60)) ]
  }

  /**
   * The sample obeys the breakdown's rules: non-empty, ascending order keys,
   * each percentage the one the loop would write (24 of 36 is 66), within
   * 0..100, non-negative counts and hours, and the stages Installation, PPO
   * and FQA present.
   */
  lemma DemoStagesConsistent()
    ensures var rows := DemoStages();
      && |rows| > 0
      && (forall i, j :: 0 <= i < j < |rows| ==> rows[i].stageOrder <= rows[j].stageOrder)
      && (forall i :: 0 <= i < |rows| ==> rows[i] == WithPercent(rows[i]))
      && (forall i :: 0 <= i < |rows| ==>
            rows[i].percentComplete.Some? && 0 <= rows[i].percentComplete.value <= 100)
      && (forall i :: 0 <= i < |rows| ==>
            rows[i].vehicleCount >= 0 && rows[i].hoursRemaining >= 0.0 && rows[i].hoursCompleted >= 0.0)
      && (exists i :: 0 <= i < |rows| && rows[i].stageName == "Installation")
      && (exists i :: 0 <= i < |rows| && rows[i].stageName == "PPO")
      && (exists i :: 0 <= i < |rows| && rows[i].stageName == "FQA")
  {
    var rows := DemoStages();
    PercentCompleteCharacterised(42.0, 60.5, 69);
    PercentCompleteCharacterised(24.0, 36.0, 66);
    PercentCompleteCharacterised(9.0, 12.0, 75);
    PercentCompleteCharacterised(12.0, 20.0, 60);
    assert rows[0].stageName == "Installation";
    assert rows[1].stageName == "PPO";
    assert rows[3].stageName == "FQA";
  }
}
