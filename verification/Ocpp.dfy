/** The OCPP 1.6 requests a charge point sends, and their action names. */
module Ocpp {
  import opened Domain
  import opened Json

  datatype ChargePointStatus = Available | Preparing | Charging | SuspendedEV | Finishing

  function StatusText(s: ChargePointStatus): string {
    match s
    case Available => "Available"
    case Preparing => "Preparing"
    case Charging => "Charging"
    case SuspendedEV => "SuspendedEV"
    case Finishing => "Finishing"
  }

  /** A request as the charge point builds it. Times are the whole seconds RFC 3339 can carry. */
  datatype Request =
    | BootRequest(vendor: string, model: string, serial: string, firmware: string)
    | StatusRequest(connector: int, status: ChargePointStatus, sec: int)
    | MeterRequest(connector: int, sec: int, energy: int, power: int, soc: int)
    | HeartbeatRequest
    | StartRequest(connector: int, idTag: string, meterStart: int, sec: int)
    | StopRequest(transactionId: int, idTag: string, meterStop: int, sec: int, reason: string)

  const BOOT_NOTIFICATION := Ascii("BootNotification")
  const STATUS_NOTIFICATION := Ascii("StatusNotification")
  const METER_VALUES := Ascii("MeterValues")
  const HEARTBEAT := Ascii("Heartbeat")
  const START_TRANSACTION := Ascii("StartTransaction")
  const STOP_TRANSACTION := Ascii("StopTransaction")

  function ActionOf(r: Request): Text {
    match r
    case BootRequest(_, _, _, _) => BOOT_NOTIFICATION
    case StatusRequest(_, _, _) => STATUS_NOTIFICATION
    case MeterRequest(_, _, _, _, _) => METER_VALUES
    case HeartbeatRequest => HEARTBEAT
    case StartRequest(_, _, _, _) => START_TRANSACTION
    case StopRequest(_, _, _, _, _) => STOP_TRANSACTION
  }

  /** The topic the gateway publishes an action to; none for any other action. */
  function TopicFor(action: Text): Option<Topic> {
    if action == BOOT_NOTIFICATION then Some(BootTopic)
    else if action == STATUS_NOTIFICATION then Some(StatusTopic)
    else if action == METER_VALUES then Some(MeterTopic)
    else if action == HEARTBEAT then Some(HeartbeatTopic)
    else if action == START_TRANSACTION || action == STOP_TRANSACTION then Some(TxTopic)
    else None
  }

  lemma ActionsDiffer()
    ensures START_TRANSACTION != BOOT_NOTIFICATION && START_TRANSACTION != STATUS_NOTIFICATION
    ensures START_TRANSACTION != METER_VALUES && START_TRANSACTION != HEARTBEAT && START_TRANSACTION != STOP_TRANSACTION
    ensures STOP_TRANSACTION != BOOT_NOTIFICATION && STOP_TRANSACTION != STATUS_NOTIFICATION
    ensures STOP_TRANSACTION != METER_VALUES && STOP_TRANSACTION != HEARTBEAT
    ensures BOOT_NOTIFICATION != STATUS_NOTIFICATION && BOOT_NOTIFICATION != METER_VALUES
            && BOOT_NOTIFICATION != HEARTBEAT
    ensures STATUS_NOTIFICATION != METER_VALUES && STATUS_NOTIFICATION != HEARTBEAT && METER_VALUES != HEARTBEAT
  {
    assert |BOOT_NOTIFICATION| == 16 && |STATUS_NOTIFICATION| == 18 && |METER_VALUES| == 11;
    assert |HEARTBEAT| == 9 && |START_TRANSACTION| == 16 && |STOP_TRANSACTION| == 15;
    assert START_TRANSACTION[0] == 0x53 && BOOT_NOTIFICATION[0] == 0x42;
  }
}
