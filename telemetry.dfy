/** The device's health indicators: battery percentage from the last
    reported voltage and signal bars from the last reported RSSI. The raw
    values are stored as the device sent them; clamping happens here. */
module Telemetry {
  import opened Php

  /** Voltage of an empty and of a full Li-ion cell. */
  const MinVolt: real := 3.0
  const MaxVolt: real := 4.2

  /** The linear position of a voltage between empty and full, in percent. */
  function LinearPercent(volts: real): real {
    (volts - MinVolt) / (MaxVolt - MinVolt) * 100.0
  }

  /** PHP's `round($x)`: the nearest integer, halves rounded away from zero. */
  function Round(x: real): (r: int)
    ensures x >= 0.0 ==> r as real - 0.5 <= x < r as real + 0.5
    ensures x < 0.0 ==> r as real - 0.5 < x <= r as real + 0.5
  {
    if x >= 0.0 then (x + 0.5).Floor else -((-x + 0.5).Floor)
  }

  /** `battery_percent`. A device that never reported a voltage has a null
      one, and PHP's `null <= 3.0` holds, so it reads as empty. */
  function BatteryPercent(volts: Option<real>): (percent: int)
    ensures 0 <= percent <= 100
    ensures volts.None? ==> percent == 0
    ensures volts.Some? && volts.value <= MinVolt ==> percent == 0
    ensures volts.Some? && volts.value >= MaxVolt ==> percent == 100
    ensures volts.Some? && MinVolt < volts.value < MaxVolt ==>
              percent as real - 0.5 <= LinearPercent(volts.value) < percent as real + 0.5
  {
    match volts
    case None => 0
    case Some(v) =>
      if v <= MinVolt then 0
      else if v >= MaxVolt then 100
      else Round(LinearPercent(v))
  }

  /** More voltage never shows a smaller percentage. */
  lemma BatteryPercentMonotone(v1: real, v2: real)
    requires v1 <= v2
    ensures BatteryPercent(Some(v1)) <= BatteryPercent(Some(v2))
  {
  }

  /** The voltages the feature tests check, with the percentages they expect. */
  lemma BatteryPercentExamples()
    ensures BatteryPercent(Some(3.0)) == 0
    ensures BatteryPercent(Some(4.2)) == 100
    ensures BatteryPercent(Some(2.9)) == 0
    ensures BatteryPercent(Some(4.3)) == 100
    ensures BatteryPercent(Some(3.6)) == 50
    ensures BatteryPercent(Some(3.3)) == 25
  {
  }

  /** `wifi_strength`: 0 bars for a non-negative RSSI (no connection), then
      1, 2, 3 bars as the signal gets stronger; each threshold belongs to the
      weaker bucket. A null RSSI reads as 0 bars, since `null >= 0` holds. */
  function WifiStrength(rssi: Option<int>): (bars: int)
    ensures 0 <= bars <= 3
    ensures bars == 0 <==> rssi.None? || rssi.value >= 0
    ensures bars == 1 <==> rssi.Some? && rssi.value <= -80
    ensures bars == 2 <==> rssi.Some? && -80 < rssi.value <= -60
    ensures bars == 3 <==> rssi.Some? && -60 < rssi.value < 0
  {
    match rssi
    case None => 0
    case Some(r) =>
      if r >= 0 then 0
      else if r <= -80 then 1
      else if r <= -60 then 2
      else 3
  }

  /** Among negative readings, a stronger signal never shows fewer bars. */
  lemma WifiStrengthMonotone(r1: int, r2: int)
    requires r1 <= r2 < 0
    ensures WifiStrength(Some(r1)) <= WifiStrength(Some(r2))
  {
  }

  /** The readings the feature tests check, with the bars they expect. */
  lemma WifiStrengthExamples()
    ensures WifiStrength(Some(0)) == 0
    ensures WifiStrength(Some(-90)) == 1
    ensures WifiStrength(Some(-70)) == 2
    ensures WifiStrength(Some(-50)) == 3
  {
  }
}
