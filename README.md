# Telemetry exporter: latest-value slots, tick decision, normalisation, configuration

This project models the decision logic of the turtlebot telemetry exporter
(`exporter.py`). The exporter is a ROS 2 node. It keeps the most recent battery-state
message and the most recent localisation pose in two slots. Every five seconds, once both
readings have arrived, it tries to forward one telemetry record to a RabbitMQ queue.

The model covers four parts:

- **Configuration** (`config.dfy`, module `Config`). `required` is modelled, together with
  `int()` on the port text. `build_rmq_params` is modelled: each URI component takes
  precedence field by field over its discrete environment variable, and the vhost is derived
  from the URI path. The robot name is `ROBOT_NAME`, or else the host name, lower-cased.
  The environment is a `map<string, string>`, and the URI parser is a parameter returning a
  record of optional components.
- **Battery normalisation** (`battery.dfy`, module `Battery`). This is the `> 1.0`
  scale heuristic. It yields the published ratio, the logged percent and the energy remaining,
  and the energy is rounded to three decimals for publication. All of it is over `real`.
- **One tick** (`telemetry.dfy`, module `Telemetry`). This covers the messages, the published
  record and the function `Tick`. Given the two slots, `Tick` returns the tick's status line,
  its warnings, its publish attempt (if any), and whether that attempt failed.
- **The node** (`node.dfy`, module `Node`). Class `ExporterNode` holds the two slots as
  mutable fields. The two callbacks overwrite them, and `PublishTelemetry` reads them without
  changing them. `timeline.dfy` (module `Timeline`) relates whole sequences of callbacks and
  ticks: which message each slot holds, when a tick publishes, and the fact that failures and
  ticks do not affect later ticks.

The broker call is a fallible sink. The tick receives `accepted`, which says whether a publish
made now would succeed. A refused publish sets `publishFailed` in the report, and the tick
returns normally. The clock reading `ts` is a parameter.

Details of `exporter.py`'s behaviour the model keeps:

- Without a URI, the vhost is `RABBITMQ_VHOST` whenever that variable is present, even when it
  is empty. `"/"` is used only when the variable is unset.
- With a URI, `RABBITMQ_VHOST` is ignored.
- A URI component that is missing is filled from its required variable. If that variable is
  also missing, start-up fails.
- A URI port of 0 counts as absent.
- Published values are not clamped. The ratio lies in [0, 1] only for raw percentages in
  [0, 100] (`Battery.RatioInUnitRange`). A raw value above 100 gives a ratio above 1, and a
  negative raw value gives a negative ratio.
- A publish failure is not returned as an error value. It is caught and logged, and the model
  reports it as a flag.

## Model

| member | source | states |
|---|---|---|
| `Config.Required` | exporter.py:12-16 | succeeds exactly when the variable is present and non-empty, with its value; otherwise fails naming the variable |
| `Config.ParseInt` | exporter.py:26 | reads a value exactly when the text is an optional sign followed by decimal digits; a minus sign gives a non-positive value |
| `Config.ParseDecimal` | exporter.py:30 | every integer written in decimal, with or without a minus sign, is read back as itself (the unpadded case of `ParsePadded`) |
| `Config.ParsePadded` | exporter.py:30 | leading zeros and a leading `+` leave the value unchanged and a leading `-` negates it, for every number and every count of leading zeros |
| `Config.RequiredInt` | exporter.py:30 | `int(required(name))`: succeeds exactly when the variable is set and reads as an integer; an unset variable is reported before a malformed one |
| `Config.UriOrRequired` | exporter.py:23-25 | a truthy URI component wins, otherwise the required variable; fails exactly when both are missing |
| `Config.UriPortOrRequired` | exporter.py:26 | a non-zero URI port wins, otherwise the port variable read as an integer; fails exactly when neither is usable, naming a missing variable before a malformed one |
| `Config.VhostFromPath` | exporter.py:27 | an empty path or `"/"` gives `"/"`; any other path is its first character followed by the vhost |
| `Config.BuildParams` | exporter.py:19-33 | with a URI, succeeds exactly when each of user, password, host and port comes from the URI or its variable, with URI components winning field by field and the vhost taken from the path; without a URI, succeeds exactly when host, port (an integer), user and password are all set, with the vhost from `RABBITMQ_VHOST` or `"/"` |
| `Config.DiscreteErrorOrder` | exporter.py:29-32 | without a URI, the error names the first unusable variable in the order host, port, user, password |
| `Config.UriErrorOrder` | exporter.py:23-26 | with a URI, the error names the first variable both missing from the URI and unusable in the environment, in the order user, password, host, port |
| `Config.Lower` | exporter.py:55 | keeps the length, turns every ASCII upper-case letter into its lower-case counterpart and keeps every other character |
| `Config.LowerIdempotent` | exporter.py:55 | lower-casing twice is the same as lower-casing once |
| `Config.RobotName` | exporter.py:55 | `ROBOT_NAME` lower-cased when set and non-empty, else the host name lower-cased; never contains an upper-case letter |
| `Battery.RawPercentage` | exporter.py:91 | a missing percentage reads as 0.0; a present one is kept |
| `Battery.Normalize` | exporter.py:91-94 | above 1.0 the raw value is a percent (ratio raw/100, display raw), otherwise a fraction (ratio raw, display raw*100); display is always 100 times the ratio; energy is ratio times capacity |
| `Battery.RatioInUnitRange` | exporter.py:92 | a raw value in [0, 100] gives a ratio in [0, 1], positive when the raw value is |
| `Battery.EnergyWithinCapacity` | exporter.py:94 | with such a raw value and a non-negative capacity, the energy lies between 0 and the capacity |
| `Battery.MissingPercentageIsEmpty` | exporter.py:91-94 | a missing percentage normalises to ratio, display and energy 0 |
| `Battery.ThresholdDiscontinuity` | exporter.py:92 | raw 1.0 reads as a full battery while raw 2.0 reads as 2 %; every raw value in (1, 100] gives a ratio of at most 1 |
| `Battery.Round3` | exporter.py:124 | the result is a multiple of 0.001 within 0.0005 of the input |
| `Battery.Round3Exact` | exporter.py:124 | a value with at most three decimals is unchanged |
| `Battery.Round3TiesToEven` | exporter.py:124 | every value halfway between two multiples of 0.001 goes to the even one |
| `Battery.Examples` | exporter.py:91-94 | with a capacity of 20 Wh: raw 55 gives ratio 0.55, display 55 and energy 11; raw 0.4 gives ratio 0.4, display 40 and energy 8 |
| `Telemetry.ReadingOf` | exporter.py:90-95 | the logged percent is 100 times the normalised ratio, the logged energy is unrounded, and the voltage is the message's |
| `Telemetry.BuildRecord` | exporter.py:117-127 | the record carries the timestamp, the robot name, type `"telemetry"`, the normalised ratio, the message voltage, the logged energy rounded to three decimals, and the pose's x and y |
| `Telemetry.Tick` | exporter.py:86-136 | a publish attempt happens exactly when both slots are set; one warning per empty slot, battery first; the attempt goes to the default exchange with routing key `"turtlebot.telemetry"`, persistent delivery and the built record; a failure is flagged exactly when an attempt was refused; the status line shows each set slot and omits each empty one |
| `Telemetry.MissingPercentageStillPublished` | exporter.py:87-127 | a battery message without a percentage still counts as present: with a pose set, the tick publishes with no warning, ratio 0, the message's voltage and energy 0 |
| `Telemetry.PoseOnlyScenario` | exporter.py:110-115 | pose set and battery empty: no attempt and the single warning for the battery |
| `Timeline.ReplayHoldsLatest` | exporter.py:80-84 | after any sequence of callbacks and ticks, each slot holds the last message written to it, or its initial value when none was |
| `Timeline.ReadAfterWrite` | exporter.py:80-84 | right after a battery (pose) update the slot holds that message and the other slot is unchanged |
| `Timeline.TicksKeepSlots` | exporter.py:86-136 | any sequence of ticks leaves both slots as they were |
| `Timeline.OneReportPerTick` | exporter.py:78 | every tick of a trace produces exactly one report |
| `Timeline.PublishesIffBothSampled` | exporter.py:86-115 | from start-up, a tick makes a publish attempt exactly when at least one battery message and at least one pose message arrived before it |
| `Timeline.PresenceIsSticky` | exporter.py:87-88 | once both slots are set, every later tick attempts a publish and warns of nothing, however old the messages are |
| `Timeline.FailuresAreIsolated` | exporter.py:129-136 | whether earlier publishes were refused changes neither the slots nor any later tick's attempt, status line or warnings |
| `Timeline.PoseBeforeBatteryScenario` | exporter.py:110-115 | from start-up, a pose followed by a tick yields one report with no attempt and one battery warning |
| `Node.SpecWhText` | exporter.py:58 | the capacity text is `BATTERY_SPEC_WH` when present, else `"19.98"` |
| `Node.ExporterNode.constructor` | exporter.py:55-61 | the node starts with its connection parameters, robot name and capacity, and both slots empty |
| `Node.ExporterNode.Create` | exporter.py:42-61 | among the modelled steps, start-up fails exactly when the connection parameters fail, with the same error; otherwise the new node has those parameters, the resolved robot name, the configured capacity and empty slots |
| `Node.ExporterNode.BatteryCallback` | exporter.py:80-81 | the battery slot holds the new message and the pose slot is unchanged |
| `Node.ExporterNode.PoseCallback` | exporter.py:83-84 | the pose slot holds the new message and the battery slot is unchanged |
| `Node.ExporterNode.PublishTelemetry` | exporter.py:86-136 | the tick's report is `Tick` of the current slots, and the method modifies nothing |
| `Node.PoseThenBatteryRun` | exporter.py:80-136 | pose then tick skips with one battery warning; battery then a tick the broker refuses still makes one attempt carrying the pose, flags the failure and returns normally |

## Left out

- RabbitMQ client: the connection, the channel, `queue_declare(durable=True)`, the credentials
  object, the heartbeat and retry settings, and closing on shutdown (exporter.py:35-39, 50-52,
  146-147). The publish call is the `accepted` parameter of a tick.
- ROS 2 plumbing: the QoS profiles, the subscriptions, the timer with its 5-second period,
  `spin`, and `main`'s shutdown path (exporter.py:63-78, 138-153). Each callback and each tick
  is one method call.
- Concurrency: callbacks and ticks are treated as sequential, as the single-threaded executor
  delivers them.
- URI parsing: the parser is a parameter. Its own errors are not modelled, such as the
  exception `.port` raises for an out-of-range or non-numeric port. Its lower-casing of the
  host name is not modelled either.
- Config.ParseInt: accepts only an optional sign followed by ASCII decimal digits. Python's
  `int()` also strips surrounding whitespace, and it accepts underscores between digits and
  non-ASCII digits; such texts are errors in the model.
- Config.Lower: lower-cases ASCII letters only. Python's `str.lower` also maps non-ASCII letters.
- Node.ExporterNode.Create: the capacity text is converted by a `parseFloat` parameter. The
  exception `float()` raises on malformed text is not modelled, and neither is the failure of
  the broker connection or of the queue declaration (exporter.py:50-52); both also abort
  start-up. The `info` dictionary and the
  log lines are also left out.
- Battery.Round3: rounds the exact real value, half to even. Python's `round` rounds the
  binary floating-point value, so a decimal tie can round the other way: the model sends
  0.0005 to 0.0, while the nearest double lies just above the tie and Python gives 0.001.
- Floating point: IEEE-754 representation is not modelled. This includes NaN, whose truthiness
  lets `percentage or 0.0` keep a NaN, and the sign of zero. All arithmetic is over `real`.
- JSON serialisation of the record, and the text of log messages together with their "N/A"
  placeholders. The status line is kept as a structured value with `None` for "N/A".
- `time.time_ns()`: the timestamp is a parameter of each tick.
- `run_exporter.py`: a shell script that exports environment variables and starts the exporter;
  it has no logic.
