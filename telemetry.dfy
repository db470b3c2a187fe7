/**
 * The inbound messages, the outbound telemetry record and the decision one
 * timer tick makes from the two latest-value slots: skip with one warning per
 * empty slot, or build one record and make one publish attempt.
 */
module Telemetry {
  import opened Wrappers
  import Battery

  /** The fields of a battery-state message the exporter reads. */
  datatype BatteryMsg = BatteryMsg(percentage: Option<real>, voltage: real)

  datatype Point = Point(x: real, y: real, z: real)

  /** A localisation pose; only its position is read, orientation and covariance are not modelled. */
  datatype PoseMsg = PoseMsg(position: Point)

  datatype BatteryBlock = BatteryBlock(percentage: real, voltage: real, wh: real)
  datatype PoseBlock = PoseBlock(x: real, y: real)

  /** The published record (its JSON form is not modelled). */
  datatype Record = Record(ts: int, bot: string, kind: string, battery: BatteryBlock, pose: PoseBlock)

  /** One call to the broker: exchange, routing key, body and delivery mode. */
  datatype Publication = Publication(exchange: string, routingKey: string, body: Record, deliveryMode: int)

  datatype Warning = NoBatteryData | NoPoseData

  /** What the status line of a tick shows; `None` stands for the "N/A" placeholders. */
  datatype Reading = Reading(display: real, voltage: real, wh: real)
  datatype Status = Status(bot: string, battery: Option<Reading>, pose: Option<PoseBlock>)

  /** Everything one tick does besides reading the slots. */
  datatype TickReport = TickReport(
    status: Status,                 // the info line, always logged
    warnings: seq<Warning>,         // one per empty slot
    attempt: Option<Publication>,   // the single publish attempt, if any
    publishFailed: bool)            // the attempt raised and the error was logged

  const QueueName := "turtlebot.telemetry"
  const RecordKind := "telemetry"
  const DefaultExchange := ""
  const PersistentDelivery := 2

  /** The battery part of the status line, at full precision. */
  function ReadingOf(msg: BatteryMsg, specWh: real): (r: Reading)
    ensures r.display == 100.0 * Battery.Normalize(Battery.RawPercentage(msg.percentage), specWh).ratio
    ensures r.wh == Battery.Normalize(Battery.RawPercentage(msg.percentage), specWh).wh
    ensures r.voltage == msg.voltage
  {
    var n := Battery.Normalize(Battery.RawPercentage(msg.percentage), specWh);
    Reading(n.display, msg.voltage, n.wh)
  }

  function PoseBlockOf(msg: PoseMsg): PoseBlock {
    PoseBlock(msg.position.x, msg.position.y)
  }

  /** The record for one tick, built from both slots' messages. */
  function BuildRecord(ts: int, bot: string, b: BatteryMsg, p: PoseMsg, specWh: real): (r: Record)
    ensures r.ts == ts && r.bot == bot && r.kind == RecordKind
    ensures r.battery.percentage == Battery.Normalize(Battery.RawPercentage(b.percentage), specWh).ratio
    ensures r.battery.voltage == b.voltage
    // the published energy is the logged one, rounded to three decimals
    ensures r.battery.wh == Battery.Round3(Battery.Normalize(Battery.RawPercentage(b.percentage), specWh).wh)
    ensures r.pose.x == p.position.x && r.pose.y == p.position.y
  {
    var n := Battery.Normalize(Battery.RawPercentage(b.percentage), specWh);
    Record(ts, bot, RecordKind, BatteryBlock(n.ratio, b.voltage, Battery.Round3(n.wh)), PoseBlockOf(p))
  }

  /** The warnings for the empty slots, battery first. */
  function MissingWarnings(battery: Option<BatteryMsg>, pose: Option<PoseMsg>): seq<Warning> {
    (if battery.None? then [NoBatteryData] else []) + (if pose.None? then [NoPoseData] else [])
  }

  /**
   * The outcome of one tick given the two slots, the robot name, the rated
   * capacity, the clock reading `ts` and whether the broker accepts a publish
   * made now.
   */
  function Tick(battery: Option<BatteryMsg>, pose: Option<PoseMsg>, bot: string, specWh: real,
                ts: int, accepted: bool): (r: TickReport)
    // a record is published exactly when both slots hold a message
    ensures r.attempt.None? <==> battery.None? || pose.None?
    // one warning per empty slot, battery first
    ensures |r.warnings| == (if battery.None? then 1 else 0) + (if pose.None? then 1 else 0)
    ensures NoBatteryData in r.warnings <==> battery.None?
    ensures NoPoseData in r.warnings <==> pose.None?
    ensures |r.warnings| == 2 ==> r.warnings == [NoBatteryData, NoPoseData]
    ensures r.attempt.Some? ==>
      && r.attempt.value.exchange == DefaultExchange
      && r.attempt.value.routingKey == QueueName
      && r.attempt.value.deliveryMode == PersistentDelivery
      && r.attempt.value.body == BuildRecord(ts, bot, battery.value, pose.value, specWh)
    // a failed attempt is reported, never propagated
    ensures r.publishFailed <==> r.attempt.Some? && !accepted
    // the status line shows whatever slots are set
    ensures r.status.bot == bot
    ensures r.status.battery.Some? <==> battery.Some?
    ensures r.status.pose.Some? <==> pose.Some?
    ensures battery.Some? ==> r.status.battery.value == ReadingOf(battery.value, specWh)
    ensures pose.Some? ==> r.status.pose.value == PoseBlockOf(pose.value)
  {
    var status := Status(
      bot,
      if battery.Some? then Some(ReadingOf(battery.value, specWh)) else None,
      if pose.Some? then Some(PoseBlockOf(pose.value)) else None);
    match (battery, pose)
    case (Some(b), Some(p)) =>
      var rec := BuildRecord(ts, bot, b, p, specWh);
      TickReport(status, [], Some(Publication(DefaultExchange, QueueName, rec, PersistentDelivery)), !accepted)
    case _ =>
      TickReport(status, MissingWarnings(battery, pose), None, false)
  }

  /**
   * A battery message without a percentage is present data: with a pose set
   * the tick publishes, with a ratio and energy of 0.
   */
  lemma MissingPercentageStillPublished(voltage: real, p: PoseMsg, bot: string, specWh: real,
                                        ts: int, accepted: bool)
    ensures var r := Tick(Some(BatteryMsg(None, voltage)), Some(p), bot, specWh, ts, accepted);
      && r.attempt.Some?
      && r.warnings == []
      && r.attempt.value.body.battery == BatteryBlock(0.0, voltage, 0.0)
  {
    Battery.MissingPercentageIsEmpty(specWh);
    Battery.Round3Exact(0);
  }

  /** Pose present and battery absent: nothing is published and one warning names the battery. */
  lemma PoseOnlyScenario(p: PoseMsg, bot: string, specWh: real, ts: int, accepted: bool)
    ensures Tick(None, Some(p), bot, specWh, ts, accepted).attempt == None
    ensures Tick(None, Some(p), bot, specWh, ts, accepted).warnings == [NoBatteryData]
  {
  }
}
