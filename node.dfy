/**
 * The exporter node: two latest-value slots that the subscription callbacks
 * overwrite, and the timer callback that reads them and makes at most one
 * publish attempt. Each callback is one method call; calls are sequential.
 */
module Node {
  import opened Wrappers
  import Config
  import Battery
  import opened Telemetry
  import Timeline

  const SpecWhVar := "BATTERY_SPEC_WH"
  const DefaultSpecWhText := "19.98"

  /** The text of the rated battery capacity: BATTERY_SPEC_WH when present, "19.98" otherwise. */
  function SpecWhText(env: Config.Env): (text: string)
    ensures SpecWhVar in env ==> text == env[SpecWhVar]
    ensures SpecWhVar !in env ==> text == DefaultSpecWhText
  {
    if SpecWhVar in env then env[SpecWhVar] else DefaultSpecWhText
  }

  class ExporterNode {
    const params: Config.RmqParams
    const bot: string
    const specWh: real
    var lastBattery: Option<BatteryMsg>
    var lastPose: Option<PoseMsg>

    /** The two slots as one value, the state the timeline reasons about. */
    ghost function Cache(): Timeline.Slots
      reads this
    {
      Timeline.Slots(lastBattery, lastPose)
    }

    constructor (params: Config.RmqParams, bot: string, specWh: real)
      ensures this.params == params && this.bot == bot && this.specWh == specWh
      ensures lastBattery == None && lastPose == None
      ensures Cache() == Timeline.Initial
    {
      this.params := params;
      this.bot := bot;
      this.specWh := specWh;
      lastBattery := None;
      lastPose := None;
    }

    /**
     * Start-up: the connection parameters are resolved first, and a
     * configuration error stops start-up before any node exists. The robot
     * name and the capacity are read afterwards; `parseFloat` converts the
     * capacity text.
     */
    static method Create(env: Config.Env, hostname: string, urlparse: string -> Config.ParsedUri,
                         parseFloat: string -> real)
      returns (r: Result<ExporterNode, Config.ConfigError>)
      ensures r.Failure? <==> Config.BuildParams(env, urlparse).Failure?
      ensures r.Failure? ==> r.error == Config.BuildParams(env, urlparse).error
      ensures r.Success? ==>
        && fresh(r.value)
        && r.value.params == Config.BuildParams(env, urlparse).value
        && r.value.bot == Config.RobotName(env, hostname)
        && r.value.specWh == parseFloat(SpecWhText(env))
        && r.value.Cache() == Timeline.Initial
    {
      var built := Config.BuildParams(env, urlparse);
      if built.Failure? {
        return Failure(built.error);
      }
      var bot := Config.RobotName(env, hostname);
      var specWh := parseFloat(SpecWhText(env));
      var node := new ExporterNode(built.value, bot, specWh);
      return Success(node);
    }

    /** A battery message replaces the battery slot; the pose slot is untouched. */
    method BatteryCallback(msg: BatteryMsg)
      modifies this`lastBattery
      ensures lastBattery == Some(msg)
      ensures lastPose == old(lastPose)
      ensures Cache() == Timeline.Apply(old(Cache()), Timeline.BatteryIn(msg))
    {
      lastBattery := Some(msg);
    }

    /** A pose message replaces the pose slot; the battery slot is untouched. */
    method PoseCallback(msg: PoseMsg)
      modifies this`lastPose
      ensures lastPose == Some(msg)
      ensures lastBattery == old(lastBattery)
      ensures Cache() == Timeline.Apply(old(Cache()), Timeline.PoseIn(msg))
    {
      lastPose := Some(msg);
    }

    /**
     * One timer tick at clock reading `ts`; `accepted` is whether the broker
     * takes a publish made now. The method changes no field: it only reads
     * the slots. A refused publish is logged in the report and the tick
     * returns normally.
     */
    method PublishTelemetry(ts: int, accepted: bool) returns (report: TickReport)
      ensures report == Tick(lastBattery, lastPose, bot, specWh, ts, accepted)
      ensures Timeline.ReportOf(bot, specWh, Cache(), Timeline.TimerFired(ts, accepted)) == [report]
    {
      var hasBattery := lastBattery.Some?;
      var hasPose := lastPose.Some?;

      var normalized := Battery.Normalized(0.0, 0.0, 0.0);
      var voltage := 0.0;
      var batteryReading: Option<Reading> := None;
      if hasBattery {
        normalized := Battery.Normalize(Battery.RawPercentage(lastBattery.value.percentage), specWh);
        voltage := lastBattery.value.voltage;
        batteryReading := Some(Reading(normalized.display, voltage, normalized.wh));
      }

      var x, y := 0.0, 0.0;
      var poseReading: Option<PoseBlock> := None;
      if hasPose {
        x, y := lastPose.value.position.x, lastPose.value.position.y;
        poseReading := Some(PoseBlock(x, y));
      }

      var status := Status(bot, batteryReading, poseReading);

      if !(hasBattery && hasPose) {
        var warnings: seq<Warning> := [];
        if !hasBattery {
          warnings := warnings + [NoBatteryData];
        }
        if !hasPose {
          warnings := warnings + [NoPoseData];
        }
        return TickReport(status, warnings, None, false);
      }

      var data := Record(ts, bot, RecordKind,
                         BatteryBlock(normalized.ratio, voltage, Battery.Round3(normalized.wh)),
                         PoseBlock(x, y));
      var publication := Publication(DefaultExchange, QueueName, data, PersistentDelivery);
      // a refused publish raises in the broker client; the tick catches and logs it
      var failed := !accepted;
      report := TickReport(status, [], Some(publication), failed);
    }
  }

  /**
   * A client run: pose arrives, a tick skips with one battery warning, the
   * battery arrives, and the next tick publishes even though the broker
   * refuses, leaving both slots as they were.
   */
  method PoseThenBatteryRun(p: PoseMsg, b: BatteryMsg, params: Config.RmqParams)
    returns (first: TickReport, second: TickReport)
    ensures first.attempt == None && first.warnings == [NoBatteryData]
    ensures second.attempt.Some? && second.publishFailed && second.warnings == []
    ensures second.attempt.value.body.pose == PoseBlock(p.position.x, p.position.y)
  {
    var node := new ExporterNode(params, "turtlebot3", 19.98);
    node.PoseCallback(p);
    first := node.PublishTelemetry(1000, true);
    node.BatteryCallback(b);
    second := node.PublishTelemetry(2000, false);
    assert node.lastBattery == Some(b) && node.lastPose == Some(p);
  }
}
