/**
 * The latest-value store seen over time. Callbacks and timer ticks are
 * delivered one at a time; a trace is the sequence in which they happened.
 * Battery and pose arrivals overwrite their own slot; a tick reads both
 * slots, changes neither, and reports what it did.
 */
module Timeline {
  import opened Wrappers
  import opened Telemetry

  /** The two latest-value slots of the node. */
  datatype Slots = Slots(battery: Option<BatteryMsg>, pose: Option<PoseMsg>)

  /** Both slots are empty at start-up. */
  const Initial := Slots(None, None)

  datatype Event =
    | BatteryIn(b: BatteryMsg)
    | PoseIn(p: PoseMsg)
    | TimerFired(ts: int, accepted: bool)  // clock reading, and whether the broker accepts a publish then

  /** The slots after one event. */
  function Apply(s: Slots, e: Event): Slots {
    match e
    case BatteryIn(b) => s.(battery := Some(b))
    case PoseIn(p) => s.(pose := Some(p))
    case TimerFired(_, _) => s
  }

  /** The slots after a whole trace, events applied in order. */
  function Replay(s: Slots, events: seq<Event>): Slots
    decreases |events|
  {
    if events == [] then s else Replay(Apply(s, events[0]), events[1..])
  }

  /** The report of one event: a tick reports once, a callback reports nothing. */
  function ReportOf(bot: string, specWh: real, s: Slots, e: Event): seq<TickReport> {
    match e
    case TimerFired(ts, accepted) => [Tick(s.battery, s.pose, bot, specWh, ts, accepted)]
    case _ => []
  }

  /** The reports of the ticks of a trace, in order. */
  function Reports(bot: string, specWh: real, s: Slots, events: seq<Event>): seq<TickReport>
    decreases |events|
  {
    if events == [] then []
    else ReportOf(bot, specWh, s, events[0]) + Reports(bot, specWh, Apply(s, events[0]), events[1..])
  }

  /** The most recent battery message of the trace, or `init` when it has none. */
  function LatestBattery(init: Option<BatteryMsg>, events: seq<Event>): Option<BatteryMsg>
    decreases |events|
  {
    if events == [] then init
    else if events[|events| - 1].BatteryIn? then Some(events[|events| - 1].b)
    else LatestBattery(init, events[..|events| - 1])
  }

  /** The most recent pose message of the trace, or `init` when it has none. */
  function LatestPose(init: Option<PoseMsg>, events: seq<Event>): Option<PoseMsg>
    decreases |events|
  {
    if events == [] then init
    else if events[|events| - 1].PoseIn? then Some(events[|events| - 1].p)
    else LatestPose(init, events[..|events| - 1])
  }

  function TickCount(events: seq<Event>): nat
    decreases |events|
  {
    if events == [] then 0 else (if events[0].TimerFired? then 1 else 0) + TickCount(events[1..])
  }

  lemma {:induction false} ReplayAppend(s: Slots, events: seq<Event>, e: Event)
    ensures Replay(s, events + [e]) == Apply(Replay(s, events), e)
    decreases |events|
  {
    if events != [] {
      assert (events + [e])[1..] == events[1..] + [e];
      ReplayAppend(Apply(s, events[0]), events[1..], e);
    }
  }

  lemma {:induction false} ReportsAppend(bot: string, specWh: real, s: Slots, events: seq<Event>, e: Event)
    ensures Reports(bot, specWh, s, events + [e]) ==
      Reports(bot, specWh, s, events) + ReportOf(bot, specWh, Replay(s, events), e)
    decreases |events|
  {
    if events == [] {
      assert Reports(bot, specWh, Apply(s, e), []) == [];
    } else {
      assert (events + [e])[0] == events[0];
      assert (events + [e])[1..] == events[1..] + [e];
      ReportsAppend(bot, specWh, Apply(s, events[0]), events[1..], e);
    }
  }

  /** Each slot holds the last message written to it, or its starting value when none was. */
  lemma {:induction false} ReplayHoldsLatest(s: Slots, events: seq<Event>)
    ensures Replay(s, events) == Slots(LatestBattery(s.battery, events), LatestPose(s.pose, events))
    decreases |events|
  {
    if events != [] {
      var front, last := events[..|events| - 1], events[|events| - 1];
      assert events == front + [last];
      ReplayAppend(s, front, last);
      ReplayHoldsLatest(s, front);
    }
  }

  lemma {:induction false} LatestBatteryPresent(events: seq<Event>)
    ensures LatestBattery(None, events).Some? <==> exists i :: 0 <= i < |events| && events[i].BatteryIn?
    decreases |events|
  {
    if events != [] {
      var front := events[..|events| - 1];
      LatestBatteryPresent(front);
      assert forall i :: 0 <= i < |front| ==> front[i] == events[i];
    }
  }

  lemma {:induction false} LatestPosePresent(events: seq<Event>)
    ensures LatestPose(None, events).Some? <==> exists i :: 0 <= i < |events| && events[i].PoseIn?
    decreases |events|
  {
    if events != [] {
      var front := events[..|events| - 1];
      LatestPosePresent(front);
      assert forall i :: 0 <= i < |front| ==> front[i] == events[i];
    }
  }

  /**
   * From start-up, a tick makes a publish attempt exactly when at least one
   * battery message and at least one pose message arrived before it.
   */
  lemma PublishesIffBothSampled(bot: string, specWh: real, events: seq<Event>, ts: int, accepted: bool)
    ensures var rs := Reports(bot, specWh, Initial, events + [TimerFired(ts, accepted)]);
      && |rs| > 0
      && (rs[|rs| - 1].attempt.Some? <==>
            (exists i :: 0 <= i < |events| && events[i].BatteryIn?) &&
            (exists j :: 0 <= j < |events| && events[j].PoseIn?))
  {
    ReportsAppend(bot, specWh, Initial, events, TimerFired(ts, accepted));
    ReplayHoldsLatest(Initial, events);
    LatestBatteryPresent(events);
    LatestPosePresent(events);
  }

  /** A read right after an update returns the message just written; the other slot is untouched. */
  lemma ReadAfterWrite(s: Slots, events: seq<Event>, b: BatteryMsg, p: PoseMsg)
    ensures Replay(s, events + [BatteryIn(b)]).battery == Some(b)
    ensures Replay(s, events + [BatteryIn(b)]).pose == Replay(s, events).pose
    ensures Replay(s, events + [PoseIn(p)]).pose == Some(p)
    ensures Replay(s, events + [PoseIn(p)]).battery == Replay(s, events).battery
  {
    ReplayAppend(s, events, BatteryIn(b));
    ReplayAppend(s, events, PoseIn(p));
  }

  /** Ticks never change the slots. */
  lemma {:induction false} TicksKeepSlots(s: Slots, events: seq<Event>)
    requires forall i :: 0 <= i < |events| ==> events[i].TimerFired?
    ensures Replay(s, events) == s
    decreases |events|
  {
    if events != [] {
      TicksKeepSlots(s, events[1..]);
    }
  }

  /** Every tick of a trace is reported exactly once. */
  lemma {:induction false} OneReportPerTick(bot: string, specWh: real, s: Slots, events: seq<Event>)
    ensures |Reports(bot, specWh, s, events)| == TickCount(events)
    decreases |events|
  {
    if events != [] {
      OneReportPerTick(bot, specWh, Apply(s, events[0]), events[1..]);
    }
  }

  /**
   * There is no staleness check: once both slots are set, however old their
   * messages, every later tick makes a publish attempt.
   */
  lemma {:induction false} PresenceIsSticky(bot: string, specWh: real, s: Slots, events: seq<Event>)
    requires s.battery.Some? && s.pose.Some?
    ensures forall i :: 0 <= i < |Reports(bot, specWh, s, events)| ==>
      Reports(bot, specWh, s, events)[i].attempt.Some? && Reports(bot, specWh, s, events)[i].warnings == []
    decreases |events|
  {
    if events != [] {
      PresenceIsSticky(bot, specWh, Apply(s, events[0]), events[1..]);
    }
  }

  /** The same trace with every tick's publish accepted. */
  function AllAccepted(events: seq<Event>): (r: seq<Event>)
    ensures |r| == |events|
    decreases |events|
  {
    if events == [] then []
    else
      var e := match events[0]
        case TimerFired(ts, _) => TimerFired(ts, true)
        case other => other;
      [e] + AllAccepted(events[1..])
  }

  /**
   * A failed publish changes nothing that follows: whatever the broker did
   * with earlier attempts, each tick makes the same attempt and logs the same
   * status and warnings.
   */
  lemma {:induction false} FailuresAreIsolated(bot: string, specWh: real, s: Slots, events: seq<Event>)
    ensures |Reports(bot, specWh, s, events)| == |Reports(bot, specWh, s, AllAccepted(events))|
    ensures forall i :: 0 <= i < |Reports(bot, specWh, s, events)| ==>
      var r, r' := Reports(bot, specWh, s, events)[i], Reports(bot, specWh, s, AllAccepted(events))[i];
      r.attempt == r'.attempt && r.status == r'.status && r.warnings == r'.warnings
    ensures Replay(s, events) == Replay(s, AllAccepted(events))
    decreases |events|
  {
    if events != [] {
      var e, e' := events[0], AllAccepted(events)[0];
      assert AllAccepted(events)[1..] == AllAccepted(events[1..]);
      assert Apply(s, e) == Apply(s, e');
      FailuresAreIsolated(bot, specWh, Apply(s, e), events[1..]);
    }
  }

  /** Starting empty, pose arriving and a tick firing before any battery reading publishes nothing. */
  lemma PoseBeforeBatteryScenario(bot: string, specWh: real, p: PoseMsg, ts: int, accepted: bool)
    ensures Reports(bot, specWh, Initial, [PoseIn(p), TimerFired(ts, accepted)]) ==
      [Tick(None, Some(p), bot, specWh, ts, accepted)]
    ensures Reports(bot, specWh, Initial, [PoseIn(p), TimerFired(ts, accepted)])[0].warnings == [NoBatteryData]
  {
    var s1 := Apply(Initial, PoseIn(p));
    assert [PoseIn(p), TimerFired(ts, accepted)][1..] == [TimerFired(ts, accepted)];
    assert Reports(bot, specWh, s1, [TimerFired(ts, accepted)]) == [Tick(None, Some(p), bot, specWh, ts, accepted)] + [];
  }
}
