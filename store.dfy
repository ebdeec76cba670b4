/**
 * The read-only records the dashboard queries. Each datatype is one table
 * row, restricted to the columns the queries read.
 */
module Store {
  import opened Wrappers

  /**
   * A row of `vehicles`. `arrivalDate` is `DATE(arrival_time)`, the ISO
   * calendar date of the arrival timestamp.
   */
  datatype Vehicle = Vehicle(
    id: int,
    arrivalDate: string,
    shiftAssigned: string,
    estimatedLaborHours: real,
    status: string,
    currentStageId: Option<int>)

  /** A row of `work_orders`; it belongs to the vehicle whose id is `vehicleId`. */
  datatype WorkOrder = WorkOrder(
    vehicleId: int,
    status: string,
    estimatedHours: real,
    actualHours: real)

  /** A row of `production_stages`: the stage catalogue. */
  datatype ProductionStage = ProductionStage(id: int, stageName: string, stageOrder: int)

  /**
   * A row of `shift_summaries`. `carryoverHours` is a nullable column;
   * `createdAt` is the creation timestamp as an ordering key.
   */
  datatype ShiftSummary = ShiftSummary(
    shiftDate: string,
    shiftType: string,
    carryoverHours: Option<real>,
    createdAt: int)

  /** A snapshot of the four tables. */
  datatype Database = Database(
    vehicles: seq<Vehicle>,
    workOrders: seq<WorkOrder>,
    stages: seq<ProductionStage>,
    summaries: seq<ShiftSummary>)

  const DELIVERED: string := "delivered"
  const COMPLETE: string := "complete"

  /** Every hour column holds a non-negative figure. */
  predicate HoursNonNegative(db: Database) {
    && (forall i :: 0 <= i < |db.vehicles| ==> db.vehicles[i].estimatedLaborHours >= 0.0)
    && (forall i :: 0 <= i < |db.workOrders| ==>
          db.workOrders[i].estimatedHours >= 0.0 && db.workOrders[i].actualHours >= 0.0)
    && (forall i :: 0 <= i < |db.summaries| ==> db.summaries[i].carryoverHours.GetOr(0.0) >= 0.0)
  }
}
