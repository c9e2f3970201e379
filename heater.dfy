/**
 * The heat-coil controller: a threshold rule with no deadband that drives one
 * GPIO output pin and reports the commanded state as "ON" or "OFF".
 */
module Heater {

  /** The BCM number of the GPIO pin wired to the heat coil. */
  const HeatCoilPin: nat := 17

  /** The target temperature the collection cycle passes, in degrees Celsius. */
  const DefaultTarget: real := 30.0

  const On: string := "ON"
  const Off: string := "OFF"

  /** The state the controller commands for a temperature and a target. */
  function Decision(currentTemp: real, targetTemp: real): (status: string)
    ensures status == On <==> currentTemp < targetTemp
    ensures status == Off <==> currentTemp >= targetTemp
  {
    if currentTemp < targetTemp then On else Off
  }

  /** The output pin of the heat coil; `high` is the level last written to it. */
  class HeatCoil {
    const pin: nat
    var high: bool

    /** Configures the pin as an output and drives it low, as at program start. */
    constructor ()
      ensures pin == HeatCoilPin && !high
    {
      pin := HeatCoilPin;
      high := false;
    }

    /**
     * One control evaluation: writes the pin high when the temperature is below
     * the target and low otherwise, and reports the state it commanded. The
     * result does not depend on the level the pin had before.
     */
    method ControlHeat(currentTemp: real, targetTemp: real) returns (status: string)
      modifies this
      ensures status == Decision(currentTemp, targetTemp)
      ensures high <==> status == On
      ensures high <==> currentTemp < targetTemp
    {
      if currentTemp < targetTemp {
        high := true;
        status := On;
      } else {
        high := false;
        status := Off;
      }
    }
  }
}
