/**
 * One collection cycle of the device: read the three sensors, run the heat
 * control, build the reading and hand it to the HTTP and LoRa senders. Any
 * exception raised on the way ends the cycle with `false`.
 */
module Cycle {
  import opened Basics
  import opened Payload
  import Mcp3008
  import Calibration
  import Heater

  /** The outcome of one SPI transfer with the converter: a reply, or a bus error that raises. */
  datatype Transfer = Answered(reply: Mcp3008.Reply) | BusError

  /**
   * Whether the transport calls raise: the HTTP post (connection failure or
   * timeout; an error status does not raise), opening the LoRa SPI device, and
   * closing it. Sending over LoRa catches its own exceptions and never raises.
   */
  datatype Links = Links(postRaises: bool, loraOpenRaises: bool, loraCloseRaises: bool)

  /**
   * The externally visible actions of a cycle, in the order they happen.
   * `ReadChannel(c)` is one SPI transfer that sends `Mcp3008.CommandFrame(c)`
   * and receives the reply recorded for that transfer in the cycle's bus input.
   */
  datatype Step = ReadChannel(channel: Mcp3008.Channel) | WritePin(high: bool) | PostHttp | SendLora

  /**
   * The four conversions of a cycle: methane, temperature, pH, then the
   * second temperature read that the heat control makes on its own.
   */
  const ReadSteps: seq<Step> := [ReadChannel(0), ReadChannel(1), ReadChannel(2), ReadChannel(1)]

  /** The keys of every payload the device builds. */
  const PayloadKeys: set<string> := set k | k in ReadingKeys

  /** The outcome of the `i`-th transfer of the cycle; transfers not listed fail. */
  function TransferAt(bus: seq<Transfer>, i: nat): Transfer {
    if i < |bus| then bus[i] else BusError
  }

  /** All four conversions of the cycle answer. */
  predicate AllAnswered(bus: seq<Transfer>) {
    TransferAt(bus, 0).Answered? && TransferAt(bus, 1).Answered? &&
    TransferAt(bus, 2).Answered? && TransferAt(bus, 3).Answered?
  }

  /** The index of the first of the four transfers that fails, or 4 when none does. */
  function FirstFault(bus: seq<Transfer>): (k: nat)
    ensures k <= 4 && (k == 4 <==> AllAnswered(bus))
    ensures forall i :: 0 <= i < k ==> TransferAt(bus, i).Answered?
    ensures k < 4 ==> TransferAt(bus, k).BusError?
  {
    if TransferAt(bus, 0).BusError? then 0
    else if TransferAt(bus, 1).BusError? then 1
    else if TransferAt(bus, 2).BusError? then 2
    else if TransferAt(bus, 3).BusError? then 3
    else 4
  }

  /** The sample carried by an answered transfer. */
  function SampleAt(bus: seq<Transfer>, i: nat): int
    requires TransferAt(bus, i).Answered?
  {
    Mcp3008.Decode(TransferAt(bus, i).reply)
  }

  /** The reading object sent by the device; `stamp` is the formatted local time. */
  function BuildPayload(methane: real, temperature: real, ph: real, heatStatus: string, stamp: string): (p: Object)
    ensures p.Keys == PayloadKeys
  {
    map[MethaneKey := Num(methane), TemperatureKey := Num(temperature), PhKey := Num(ph),
        HeatStatusKey := Str(heatStatus), TimestampKey := Str(stamp)]
  }

  /** The payload a cycle builds when all four conversions answer. */
  function CyclePayload(bus: seq<Transfer>, stamp: string): (p: Object)
    requires AllAnswered(bus)
    ensures p.Keys == PayloadKeys
    ensures p[MethaneKey] == Num(Calibration.Methane(SampleAt(bus, 0)))
    ensures p[TemperatureKey] == Num(Calibration.Temperature(SampleAt(bus, 1)))
    ensures p[PhKey] == Num(Calibration.Ph(SampleAt(bus, 2)))
    ensures p[HeatStatusKey] == Str(Heater.Decision(Calibration.Temperature(SampleAt(bus, 3)), Heater.DefaultTarget))
    ensures p[TimestampKey] == Str(stamp)
  {
    BuildPayload(Calibration.Methane(SampleAt(bus, 0)), Calibration.Temperature(SampleAt(bus, 1)),
                 Calibration.Ph(SampleAt(bus, 2)),
                 Heater.Decision(Calibration.Temperature(SampleAt(bus, 3)), Heater.DefaultTarget), stamp)
  }

  /**
   * The actions of a cycle: the reads up to the first one that fails; when all
   * answer, the pin write at level `high`, the post, and the LoRa send unless
   * the post or the LoRa open raised.
   */
  function CycleTrace(bus: seq<Transfer>, links: Links, high: bool): seq<Step> {
    if !AllAnswered(bus) then ReadSteps[..FirstFault(bus) + 1]
    else ReadSteps + [WritePin(high), PostHttp] +
         (if !links.postRaises && !links.loraOpenRaises then [SendLora] else [])
  }

  /** In a cycle the pin is written only after all four reads, and LoRa is tried only after a post that did not raise. */
  lemma CycleTraceOrder(bus: seq<Transfer>, links: Links, high: bool)
    ensures forall i :: 0 <= i < |CycleTrace(bus, links, high)| && CycleTrace(bus, links, high)[i].WritePin? ==>
      CycleTrace(bus, links, high)[..i] == ReadSteps
    ensures SendLora in CycleTrace(bus, links, high) <==>
      AllAnswered(bus) && !links.postRaises && !links.loraOpenRaises
  {
    var trace := CycleTrace(bus, links, high);
    if AllAnswered(bus) {
      assert trace[..4] == ReadSteps;
      assert forall i :: 0 <= i < |trace| && trace[i].WritePin? ==> i == 4;
    } else {
      assert forall i :: 0 <= i < |trace| ==> trace[i].ReadChannel?;
      assert SendLora !in trace;
    }
  }

  /**
   * The measuring part of a cycle: the three sensor reads and the heat
   * control, which reads the temperature channel again and drives the coil.
   * Stops at the first transfer that fails, leaving the coil untouched.
   * Returns the payload if one was built and the actions taken.
   */
  method Measure(coil: Heater.HeatCoil, bus: seq<Transfer>, stamp: string)
    returns (payload: Option<Object>, trace: seq<Step>)
    modifies coil
    ensures payload.Some? <==> AllAnswered(bus)
    ensures AllAnswered(bus) ==> payload == Some(CyclePayload(bus, stamp))
    ensures !AllAnswered(bus) ==> coil.high == old(coil.high)
    ensures AllAnswered(bus) ==> coil.high == (Calibration.Temperature(SampleAt(bus, 3)) < Heater.DefaultTarget)
    ensures trace == if AllAnswered(bus) then ReadSteps + [WritePin(coil.high)] else ReadSteps[..FirstFault(bus) + 1]
  {
    payload := None;

    trace := [ReadChannel(0)];
    var t := TransferAt(bus, 0);
    if t.BusError? { return; }
    var methane := Calibration.Methane(Mcp3008.Decode(t.reply));

    trace := trace + [ReadChannel(1)];
    t := TransferAt(bus, 1);
    if t.BusError? { return; }
    var temperature := Calibration.Temperature(Mcp3008.Decode(t.reply));

    trace := trace + [ReadChannel(2)];
    t := TransferAt(bus, 2);
    if t.BusError? { return; }
    var ph := Calibration.Ph(Mcp3008.Decode(t.reply));

    // The heat control reads the temperature channel again.
    trace := trace + [ReadChannel(1)];
    t := TransferAt(bus, 3);
    if t.BusError? { return; }
    var status := coil.ControlHeat(Calibration.Temperature(Mcp3008.Decode(t.reply)), Heater.DefaultTarget);
    trace := trace + [WritePin(coil.high)];

    payload := Some(BuildPayload(methane, temperature, ph, status, stamp));
  }

  /**
   * One run of the collection cycle. `bus` lists the outcomes of the SPI
   * transfers in the order they are made, `stamp` is the formatted local time,
   * and `links` says which transport calls raise. Returns the cycle's result,
   * the payload if one was built, and the actions taken.
   */
  method CollectAndSend(coil: Heater.HeatCoil, bus: seq<Transfer>, stamp: string, links: Links)
    returns (ok: bool, payload: Option<Object>, trace: seq<Step>)
    modifies coil
    ensures payload.Some? <==> AllAnswered(bus)
    ensures AllAnswered(bus) ==> payload == Some(CyclePayload(bus, stamp))
    ensures ok <==> AllAnswered(bus) && !links.postRaises && !links.loraOpenRaises && !links.loraCloseRaises
    // The heat coil is commanded only once all four conversions have answered.
    ensures !AllAnswered(bus) ==> coil.high == old(coil.high)
    ensures AllAnswered(bus) ==> coil.high == (Calibration.Temperature(SampleAt(bus, 3)) < Heater.DefaultTarget)
    ensures trace == CycleTrace(bus, links, coil.high)
    ensures forall i :: 0 <= i < |trace| && trace[i].WritePin? ==> trace[..i] == ReadSteps
    // LoRa is attempted only when the HTTP post did not raise.
    ensures SendLora in trace <==> AllAnswered(bus) && !links.postRaises && !links.loraOpenRaises
  {
    ok := false;
    // An exception in the measuring part ends the cycle before anything is sent.
    payload, trace := Measure(coil, bus, stamp);
    CycleTraceOrder(bus, links, coil.high);
    if payload.None? { return; }

    trace := trace + [PostHttp];
    if links.postRaises { return; }

    if links.loraOpenRaises { return; }
    trace := trace + [SendLora];
    if links.loraCloseRaises { return; }

    ok := true;
  }
}
