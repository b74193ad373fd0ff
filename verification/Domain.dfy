/** The vocabulary shared by the whole pipeline: time, stored values, events, Kafka records,
    and the Redis/PostgreSQL names the state processor uses. */
module Domain {

  datatype Option<+T> = None | Some(value: T)

  // ---------------------------------------------------------------- time

  /** Nanoseconds since Go's zero time. Event times carry full precision. */
  type Nanos = int

  const SECOND: int := 1_000_000_000
  const HOUR: int := 3600 * SECOND
  const DAY: int := 24 * HOUR

  /** What survives `Format(time.RFC3339)` followed by `time.Parse`: the whole second. */
  function FloorSec(t: Nanos): int {
    t / SECOND
  }

  // ---------------------------------------------------------------- stored text

  /** A string held in Redis, seen as one of: the RFC 3339 text of a second, the decimal text of
      an integer, or any other text. */
  datatype Val = Stamp(sec: int) | Num(n: int) | Text(text: string)

  /** `time.Parse(time.RFC3339, v)` with its error ignored: unreadable text gives the zero time. */
  function ParseTime(v: Val): Nanos {
    if v.Stamp? then v.sec * SECOND else 0
  }

  /** `fmt.Sscanf(v, "%d", &i)` with `i` preset to 0 and the error ignored. */
  function ScanInt(v: Val): int {
    if v.Num? then v.n else 0
  }

  /** The Go test `v != ""` on a hash field that may be absent. */
  predicate NonEmpty(v: Option<Val>) {
    v.Some? && v.value != Text("")
  }

  // ---------------------------------------------------------------- events

  datatype Topic = BootTopic | StatusTopic | MeterTopic | TxTopic | HeartbeatTopic

  datatype Sample = Sample(measurand: string, value: Val)

  /** The payload as the handler of its event type decodes it. `Bad...` is a payload that
      `json.Unmarshal` rejects; the transaction handler ignores that error, so a Start or Stop
      always has (possibly zero) fields. `Other` is an event type outside the handler's switch. */
  datatype Body =
    | Boot(vendor: string, model: string, serial: string, firmware: string)
    | Status(connector: int, status: string, errorCode: string, info: string)
    | Meter(connector: int, readings: seq<seq<Sample>>)
    | Heartbeat
    | Start(connector: int, idTag: string, meterStart: int)
    | Stop(idTag: string, meterStop: int, reason: string)
    | BadBoot | BadStatus | BadMeter
    | Other

  datatype Event = Event(
    eventId: string, messageId: string, charger: string, connector: int,
    timestamp: Nanos, receivedAt: Nanos, body: Body)

  /** The topic the gateway routes a payload to. */
  function TopicOf(b: Body): Topic {
    match b
    case Boot(_, _, _, _) => BootTopic
    case BadBoot => BootTopic
    case Status(_, _, _, _) => StatusTopic
    case BadStatus => StatusTopic
    case Meter(_, _) => MeterTopic
    case BadMeter => MeterTopic
    case Start(_, _, _) => TxTopic
    case Stop(_, _, _) => TxTopic
    case Heartbeat => HeartbeatTopic
    case Other => HeartbeatTopic
  }

  /** A Kafka record value: an event envelope, or bytes that do not decode as one. */
  datatype Record = Garbage | Rec(event: Event)

  datatype Part = Part(topic: Topic, index: nat)

  // ---------------------------------------------------------------- Redis and PostgreSQL names

  datatype Key =
    | ChargerKey(charger: string)
    | ConnKey(charger: string, connector: int)
    | ConnectorsKey(charger: string)
    | ChargersKey
    | TxKey(charger: string)
    | DedupKey(messageId: string)

  /** Hash fields. `MeterOther(m)` is the field "meter_" + m. */
  datatype Field =
    | Vendor | Model | Serial | Firmware | Online | LastSeen | LastBoot
    | StatusF | ErrorCode | StatusTs | Info
    | MeterTs | EnergyWh | PowerW | SocPercent | VoltageV | CurrentA | MeterOther(measurand: string)
    | ActiveTransaction | TxIdTag
    | StartTime | MeterStart | IdTag | ConnectorId

  /** A row of charge_sessions; its primary key is the event id of the Stop. */
  datatype Session = Session(
    sessionId: string, charger: string, connector: int, idTag: string,
    startTime: Nanos, endTime: Nanos, durationSec: int, energyWh: int,
    meterStart: int, meterStop: int, reason: string)

  /** One write command as the servers see it. A Redis pipeline is a list of these and is not a
      transaction. */
  datatype Cmd =
    | HSet(key: Key, fields: map<Field, Val>)
    | SAdd(key: Key, member: string)
    | Expire(key: Key, after: Nanos)
    | Del(key: Key)
    | InsertSession(row: Session)
}
