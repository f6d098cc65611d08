/**
 * The enumerations the firmware's tasks exchange through their queues:
 * main-task events, network-task commands, and the screens and status
 * values of the display task.
 */
module Events {

  /**
   * `main_evt_id_t`, plus the two sleep notifications the system task sends
   * (`MAIN_EVT_SLEEPING`, `MAIN_EVT_WAKING`).  `EvtNone` is what the main
   * loop sees when no message arrived.
   */
  datatype MainEvt =
    | EvtNone | EvtOtaUpdate | EvtOtaUpdateSuccess | EvtOtaUpdateFailed
    | EvtNetConnect | EvtNetDisconnect | EvtBatteryLow | EvtBatteryOk
    | EvtPowerLoss | EvtPowerRestored | EvtTimerExpired | EvtRfidPreScan
    | EvtValidRfidScan | EvtInvalidRfidScan | EvtAlarmDoorOpen | EvtAlarmDoorClosed
    | EvtUiButtonPress | EvtSleeping | EvtWaking

  /** `net_cmd_t`: the commands the network task serves. */
  datatype NetCmd =
    | CmdInit | CmdDisconnect | CmdConnect | CmdDownloadAcl | CmdSendAclUpdated
    | CmdSendAclFailed | CmdSendWifiStr | CmdSendAccess | CmdSendAccessError
    | CmdSendPowerStatus | CmdSendDoorState | CmdOtaUpdate | CmdWget

  /** `screen_t`, plus the sleep screen the main task shows on power loss. */
  datatype Screen = ScrBlank | ScrSplash | ScrIdle | ScrAccess | ScrInfo | ScrOta | ScrSleep

  datatype AclStatus =
    | AclInit | AclError | AclDownloadedUpdated | AclDownloadedSameHash | AclCached | AclDownloading

  datatype MqttStatus =
    | MqttInit | MqttError | MqttDisconnected | MqttConnected | MqttDataReceived | MqttDataSent

  datatype WifiStatus = WifiInit | WifiError | WifiDisconnected | WifiConnecting | WifiConnected

  datatype PowerStatus = PowerOnExt | PowerOnBatt | PowerOnBattLow | PowerSleep | PowerWake

  /** `ota_status_t`, plus the applying stage the OTA and MQTT code report. */
  datatype OtaStatus = OtaInit | OtaError | OtaDownloading | OtaApplying | OtaMax

  datatype NetStatus = NetCurMac | NetCurIp
}
