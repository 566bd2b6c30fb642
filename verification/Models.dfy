/** The codes that cross the wire between the services. */
module Models {
  datatype Mode = Idle | CC | CV | CP | Rest

  datatype Error =
    | NoError | OverVoltage | OverTemp | WatchdogTimeout | InternalShort | ThermalRunaway | DeadCell
}
