/** What the collector does with the readings the device builds. */
module EndToEnd {
  import opened Basics
  import opened Payload
  import Calibration
  import Heater
  import Cycle
  import Collector

  /**
   * A payload built by a cycle is stored, field for field, whenever the
   * collector can parse the device's timestamp.
   */
  lemma CyclePayloadAdmitted(bus: seq<Cycle.Transfer>, stamp: string, parse: string -> Option<int>, id: int)
    requires Cycle.AllAnswered(bus) && parse(stamp).Some?
    ensures Collector.Admit(Cycle.CyclePayload(bus, stamp), parse, id) ==
      Success(Collector.Row(id,
        Calibration.Methane(Cycle.SampleAt(bus, 0)),
        Calibration.Temperature(Cycle.SampleAt(bus, 1)),
        Calibration.Ph(Cycle.SampleAt(bus, 2)),
        Str(Heater.Decision(Calibration.Temperature(Cycle.SampleAt(bus, 3)), Heater.DefaultTarget)),
        parse(stamp).value))
  {
    var p := Cycle.CyclePayload(bus, stamp);
    assert forall k :: k in ReadingKeys ==> k in p;
  }

  /**
   * After a cycle's payload newer than every stored row is ingested, the
   * latest-reading query answers the values the device computed.
   */
  lemma DeliveredReadingIsLatest(rows: seq<Collector.Row>, bus: seq<Cycle.Transfer>, stamp: string,
                                 parse: string -> Option<int>, id: int)
    requires Cycle.AllAnswered(bus) && parse(stamp).Some?
    requires forall i :: 0 <= i < |rows| ==> rows[i].timestamp < parse(stamp).value
    ensures Collector.Admit(Cycle.CyclePayload(bus, stamp), parse, id).Success?
    ensures Collector.GetLatest(rows + [Collector.Admit(Cycle.CyclePayload(bus, stamp), parse, id).value]) ==
      Success(Collector.Reading(
        Calibration.Methane(Cycle.SampleAt(bus, 0)),
        Calibration.Temperature(Cycle.SampleAt(bus, 1)),
        Calibration.Ph(Cycle.SampleAt(bus, 2)),
        Str(Heater.Decision(Calibration.Temperature(Cycle.SampleAt(bus, 3)), Heater.DefaultTarget)),
        parse(stamp).value))
  {
    CyclePayloadAdmitted(bus, stamp, parse, id);
    Collector.LatestAfterNewerAppend(rows, Collector.Admit(Cycle.CyclePayload(bus, stamp), parse, id).value);
  }
}
