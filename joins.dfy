/**
 * Joined rows of `vehicles` and `work_orders` (`wo.vehicle_id = v.id`), and
 * the per-row and per-vehicle hour figures that both the workload and the
 * stage breakdown sum.
 */
module Joins {
  import opened Wrappers
  import opened Aggregates
  import opened Store

  /** One row of the joined relation; `None` stands for the NULLs of an outer join. */
  datatype JoinedRow = JoinedRow(vehicle: Option<Vehicle>, order: Option<WorkOrder>)

  /** The work order join condition. */
  function BelongsTo(v: Vehicle): WorkOrder -> bool {
    (wo: WorkOrder) => wo.vehicleId == v.id
  }

  /** The matching part of the work order join for one vehicle: a row per order of `v`. */
  function OrderRows(v: Vehicle, orders: seq<WorkOrder>): (rows: seq<JoinedRow>)
    ensures |rows| == Count(orders, BelongsTo(v))
    ensures forall i :: 0 <= i < |rows| ==> rows[i].vehicle == Some(v)
    ensures forall i :: 0 <= i < |rows| ==> rows[i] == JoinedRow(Some(v), Some(Filter(orders, BelongsTo(v))[i]))
  {
    if orders == [] then []
    else
      (if orders[0].vehicleId == v.id then [JoinedRow(Some(v), Some(orders[0]))] else [])
      + OrderRows(v, orders[1..])
  }

  /** `CASE WHEN wo.status != 'complete' THEN wo.estimated_hours ELSE 0 END`; a NULL order gives 0. */
  function RemainingHours(r: JoinedRow): real {
    if r.order.Some? && r.order.value.status != COMPLETE then r.order.value.estimatedHours else 0.0
  }

  /** `CASE WHEN wo.status = 'complete' THEN wo.actual_hours ELSE 0 END`; a NULL order gives 0. */
  function CompletedHours(r: JoinedRow): real {
    if r.order.Some? && r.order.value.status == COMPLETE then r.order.value.actualHours else 0.0
  }

  /** The estimated hours of an order of `v` that is not complete. */
  function OpenEstimate(v: Vehicle): WorkOrder -> real {
    (wo: WorkOrder) => if wo.vehicleId == v.id && wo.status != COMPLETE then wo.estimatedHours else 0.0
  }

  /** The actual hours of an order of `v` that is complete. */
  function ClosedActual(v: Vehicle): WorkOrder -> real {
    (wo: WorkOrder) => if wo.vehicleId == v.id && wo.status == COMPLETE then wo.actualHours else 0.0
  }

  /** A vehicle's remaining hours: estimates of its orders that are not complete. */
  function VehicleRemaining(orders: seq<WorkOrder>): Vehicle -> real {
    (v: Vehicle) => Sum(orders, OpenEstimate(v))
  }

  /** A vehicle's completed hours: actuals of its complete orders. */
  function VehicleCompleted(orders: seq<WorkOrder>): Vehicle -> real {
    (v: Vehicle) => Sum(orders, ClosedActual(v))
  }

  /** Non-negative hour columns give a vehicle non-negative remaining and completed hours. */
  lemma VehicleFiguresNonNegative(v: Vehicle, orders: seq<WorkOrder>)
    requires forall j :: 0 <= j < |orders| ==> orders[j].estimatedHours >= 0.0 && orders[j].actualHours >= 0.0
    ensures VehicleRemaining(orders)(v) >= 0.0 && VehicleCompleted(orders)(v) >= 0.0
  {
    assert forall j :: 0 <= j < |orders| ==> OpenEstimate(v)(orders[j]) >= 0.0 && ClosedActual(v)(orders[j]) >= 0.0;
  }

  lemma {:induction false} OrderRowsSums(v: Vehicle, orders: seq<WorkOrder>)
    ensures Sum(OrderRows(v, orders), RemainingHours) == Sum(orders, OpenEstimate(v))
    ensures Sum(OrderRows(v, orders), CompletedHours) == Sum(orders, ClosedActual(v))
  {
    if orders != [] {
      var head := if orders[0].vehicleId == v.id then [JoinedRow(Some(v), Some(orders[0]))] else [];
      SumConcat(head, OrderRows(v, orders[1..]), RemainingHours);
      SumConcat(head, OrderRows(v, orders[1..]), CompletedHours);
      OrderRowsSums(v, orders[1..]);
    }
  }

  /**
   * The inner join `work_orders wo JOIN vehicles v ON wo.vehicle_id = v.id`
   * for the vehicles `vs`: a row per (vehicle, order) pair, vehicle by vehicle.
   */
  function InnerJoin(vs: seq<Vehicle>, orders: seq<WorkOrder>): (rows: seq<JoinedRow>)
    ensures forall i :: 0 <= i < |rows| ==> rows[i].vehicle.Some? && rows[i].vehicle.value in vs
    ensures forall i :: 0 <= i < |rows| ==>
      && rows[i].order.Some? && rows[i].order.value in orders
      && rows[i].order.value.vehicleId == rows[i].vehicle.value.id
  {
    if vs == [] then [] else OrderRows(vs[0], orders) + InnerJoin(vs[1..], orders)
  }

  /** How often the join for `v` holds a pair: once per copy of a matching order, never for another order. */
  lemma {:induction false} OrderRowsMultiplicity(v: Vehicle, orders: seq<WorkOrder>, wo: WorkOrder)
    ensures multiset(OrderRows(v, orders))[JoinedRow(Some(v), Some(wo))]
         == if wo.vehicleId == v.id then multiset(orders)[wo] else 0
  {
    if orders != [] {
      var row, t := JoinedRow(Some(v), Some(wo)), OrderRows(v, orders[1..]);
      MultiplicityCons(orders, wo);
      OrderRowsMultiplicity(v, orders[1..], wo);
      if orders[0].vehicleId == v.id {
        var head := JoinedRow(Some(v), Some(orders[0]));
        assert OrderRows(v, orders) == [head] + t;
        MultiplicityConcat([head], t, row);
      } else {
        assert OrderRows(v, orders) == t;
      }
    }
  }

  /**
   * The inner join holds each (vehicle, order) pair as many times as the
   * vehicle occurs times the matching order occurs: every matching pair
   * once for single copies, and no other pair.
   */
  lemma {:induction false} InnerJoinMultiplicity(vs: seq<Vehicle>, orders: seq<WorkOrder>, u: Vehicle, wo: WorkOrder)
    ensures multiset(InnerJoin(vs, orders))[JoinedRow(Some(u), Some(wo))]
         == multiset(vs)[u] * (if wo.vehicleId == u.id then multiset(orders)[wo] else 0)
  {
    if vs != [] {
      var row := JoinedRow(Some(u), Some(wo));
      var h, t := OrderRows(vs[0], orders), InnerJoin(vs[1..], orders);
      var c, m := if wo.vehicleId == u.id then multiset(orders)[wo] else 0, multiset(vs[1..])[u];
      MultiplicityConcat(h, t, row);
      MultiplicityCons(vs, u);
      InnerJoinMultiplicity(vs[1..], orders, u, wo);
      if vs[0] == u {
        OrderRowsMultiplicity(u, orders, wo);
        AddOneTimes(m, c);
      } else {
        assert row !in h;
      }
    }
  }

  lemma AddOneTimes(m: int, c: int)
    ensures (m + 1) * c == m * c + c
  {
  }

  lemma PositiveProduct(a: int, b: int)
    requires a >= 1 && b >= 1
    ensures a * b >= 1
  {
  }

  /** Every matching pair of a vehicle in `vs` and an order in `orders` is a row of the inner join. */
  lemma InnerJoinComplete(vs: seq<Vehicle>, orders: seq<WorkOrder>, v: Vehicle, wo: WorkOrder)
    requires v in vs && wo in orders && wo.vehicleId == v.id
    ensures JoinedRow(Some(v), Some(wo)) in InnerJoin(vs, orders)
  {
    InnerJoinMultiplicity(vs, orders, v, wo);
    PositiveProduct(multiset(vs)[v], multiset(orders)[wo]);
  }

  /** Summing the join's rows is summing each vehicle's figures. */
  lemma {:induction false} InnerJoinSums(vs: seq<Vehicle>, orders: seq<WorkOrder>)
    ensures Sum(InnerJoin(vs, orders), CompletedHours) == Sum(vs, VehicleCompleted(orders))
    ensures Sum(InnerJoin(vs, orders), RemainingHours) == Sum(vs, VehicleRemaining(orders))
  {
    if vs != [] {
      var head, tail := OrderRows(vs[0], orders), InnerJoin(vs[1..], orders);
      SumConcat(head, tail, CompletedHours);
      SumConcat(head, tail, RemainingHours);
      OrderRowsSums(vs[0], orders);
      InnerJoinSums(vs[1..], orders);
    }
  }
}
