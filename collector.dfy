/**
 * The collector service: an append-only table of readings with an
 * auto-assigned integer key, an ingestion endpoint and two queries, the latest
 * reading and the readings of a trailing time window. Timestamps are integer
 * seconds; the storage engine is replaced by an in-memory sequence.
 */
module Collector {
  import opened Basics
  import opened Payload

  /**
   * One stored reading. The three Float columns hold the numbers received; the
   * heat-status column holds the JSON value as received.
   */
  datatype Row = Row(id: int, methane: real, temperature: real, ph: real, heatStatus: Value, timestamp: int)

  /** Why an ingestion raised before anything was stored. */
  datatype IngestError =
    | MissingKey(key: string)   // a lookup of one of the five keys failed
    | BadTimestamp              // the timestamp is not a string in the expected format
    | NotANumber                // a Float column received a string, which the model refuses
    | NotNullViolation          // one of the four NOT NULL columns received null

  /** The answer of the latest-reading query. */
  datatype Reading = Reading(methane: real, temperature: real, ph: real, heatStatus: Value, timestamp: int)

  /** The latest-reading query raised because the table is empty. */
  datatype QueryError = NoData

  /** One element of the history answer; the heat status is not part of it. */
  datatype HistoryEntry = HistoryEntry(timestamp: int, methane: real, temperature: real, ph: real)

  const StoredMessage: string := "Data stored successfully"
  const DefaultHours: int := 24
  const SecondsPerHour: int := 3600

  // ---------------------------------------------------------------- ingestion

  /** The position of the first key of `keys` missing from `data`, or |keys| if none is. */
  function FirstMissing(data: Object, keys: seq<string>): (i: nat)
    ensures i <= |keys|
    ensures forall j :: 0 <= j < i ==> keys[j] in data
    ensures i < |keys| ==> keys[i] !in data
  {
    if keys == [] then 0
    else if keys[0] !in data then 0
    else 1 + FirstMissing(data, keys[1..])
  }

  /**
   * A payload the ingestion stores: every key present, a parseable timestamp,
   * numbers in the three Float columns and a non-null heat status.
   */
  ghost predicate WellFormed(data: Object, parse: string -> Option<int>) {
    (forall k :: k in ReadingKeys ==> k in data) &&
    data[TimestampKey].Str? && parse(data[TimestampKey].s).Some? &&
    data[MethaneKey].Num? && data[TemperatureKey].Num? && data[PhKey].Num? &&
    !data[HeatStatusKey].Null?
  }

  /** A string in a Float column, which the model refuses. */
  predicate IsText(v: Value) {
    v.Str?
  }

  /**
   * The row an ingestion would store under key `id`, or the exception it raises:
   * the five lookups in order, then the timestamp parse, then, at commit, the
   * float conversion of the three Float columns (which lets null through) and
   * the NOT NULL constraints. `parse` stands for the timestamp format's parser.
   */
  function Admit(data: Object, parse: string -> Option<int>, id: int): (r: Result<Row, IngestError>)
    ensures r.Success? <==> WellFormed(data, parse)
    ensures (r.Failure? && r.error.MissingKey?) <==> exists k :: k in ReadingKeys && k !in data
    ensures r.Failure? && r.error.MissingKey? ==> r.error.key in ReadingKeys && r.error.key !in data
    ensures (r.Failure? && r.error.NotANumber?) <==>
      (forall k :: k in ReadingKeys ==> k in data) &&
      data[TimestampKey].Str? && parse(data[TimestampKey].s).Some? &&
      (IsText(data[MethaneKey]) || IsText(data[TemperatureKey]) || IsText(data[PhKey]))
    ensures r.Success? ==>
      r.value.id == id && data[MethaneKey] == Num(r.value.methane) &&
      data[TemperatureKey] == Num(r.value.temperature) && data[PhKey] == Num(r.value.ph) &&
      r.value.heatStatus == data[HeatStatusKey] &&
      parse(data[TimestampKey].s) == Some(r.value.timestamp)
  {
    var m := FirstMissing(data, ReadingKeys);
    if m < |ReadingKeys| then
      Failure(MissingKey(ReadingKeys[m]))
    else
      assert forall k :: k in ReadingKeys ==> k in data;
      var stamp := data[TimestampKey];
      if !stamp.Str? || parse(stamp.s).None? then
        Failure(BadTimestamp)
      else if IsText(data[MethaneKey]) || IsText(data[TemperatureKey]) || IsText(data[PhKey]) then
        Failure(NotANumber)
      else if data[MethaneKey].Null? || data[TemperatureKey].Null? ||
              data[PhKey].Null? || data[HeatStatusKey].Null? then
        Failure(NotNullViolation)
      else
        Success(Row(id, data[MethaneKey].n, data[TemperatureKey].n, data[PhKey].n, data[HeatStatusKey],
                    parse(stamp.s).value))
  }

  /** A payload without `ph` but with the keys looked up before it is refused on `ph`. */
  lemma MissingPhRejected(data: Object, parse: string -> Option<int>, id: int)
    requires MethaneKey in data && TemperatureKey in data && PhKey !in data
    ensures Admit(data, parse, id) == Failure(MissingKey(PhKey))
  {
    assert ReadingKeys[0] in data && ReadingKeys[1] in data && ReadingKeys[2] !in data;
    assert FirstMissing(data, ReadingKeys[2..]) == 0;
    assert FirstMissing(data, ReadingKeys[1..]) == 1 by {
      assert ReadingKeys[1..][1..] == ReadingKeys[2..];
    }
  }

  /** The table of readings, with the key the next row receives. */
  class SensorStore {
    var rows: seq<Row>
    var nextId: int

    /** Keys are positive, below `nextId` and increase in insertion order. */
    ghost predicate Valid()
      reads this
    {
      1 <= nextId &&
      (forall i :: 0 <= i < |rows| ==> 1 <= rows[i].id < nextId) &&
      (forall i, j :: 0 <= i < j < |rows| ==> rows[i].id < rows[j].id)
    }

    /** An empty table. */
    constructor ()
      ensures Valid() && rows == [] && nextId == 1
    {
      rows := [];
      nextId := 1;
    }

    /**
     * Stores one reading. On success exactly one row is appended, under a key
     * no stored row has; on failure nothing changes.
     */
    method ReceiveData(data: Object, parse: string -> Option<int>) returns (r: Result<string, IngestError>)
      requires Valid()
      modifies this
      ensures Valid()
      ensures r.Success? <==> WellFormed(data, parse)
      ensures r.Success? ==>
        r.value == StoredMessage &&
        Admit(data, parse, old(nextId)).Success? &&
        rows == old(rows) + [Admit(data, parse, old(nextId)).value] &&
        nextId == old(nextId) + 1
      ensures r.Success? ==> forall i :: 0 <= i < |old(rows)| ==> old(rows)[i].id != rows[|rows| - 1].id
      ensures r.Failure? ==>
        Admit(data, parse, old(nextId)) == Failure(r.error) &&
        rows == old(rows) && nextId == old(nextId)
    {
      var entry := Admit(data, parse, nextId);
      if entry.Failure? {
        r := Failure(entry.error);
        return;
      }
      rows := rows + [entry.value];
      nextId := nextId + 1;
      r := Success(StoredMessage);
    }
  }

  // ------------------------------------------------------------------- latest

  /** The position of a row with the greatest timestamp; among equals, the earliest. */
  function LatestIndex(rows: seq<Row>): (k: nat)
    requires |rows| > 0
    ensures k < |rows|
    ensures forall i :: 0 <= i < |rows| ==> rows[i].timestamp <= rows[k].timestamp
    ensures forall i :: 0 <= i < k ==> rows[i].timestamp < rows[k].timestamp
  {
    if |rows| == 1 then 0
    else
      var k := LatestIndex(rows[..|rows| - 1]);
      if rows[|rows| - 1].timestamp > rows[k].timestamp then |rows| - 1 else k
  }

  function ReadingOf(row: Row): Reading {
    Reading(row.methane, row.temperature, row.ph, row.heatStatus, row.timestamp)
  }

  /** The latest-reading query; it raises on an empty table. */
  function GetLatest(rows: seq<Row>): (r: Result<Reading, QueryError>)
    ensures r.Failure? <==> rows == []
    ensures r.Success? ==> r.value == ReadingOf(rows[LatestIndex(rows)])
    ensures r.Success? ==> forall i :: 0 <= i < |rows| ==> rows[i].timestamp <= r.value.timestamp
  {
    if rows == [] then Failure(NoData) else Success(ReadingOf(rows[LatestIndex(rows)]))
  }

  /** A row newer than every stored one is the latest after it is appended. */
  lemma {:induction false} LatestAfterNewerAppend(rows: seq<Row>, row: Row)
    requires forall i :: 0 <= i < |rows| ==> rows[i].timestamp < row.timestamp
    ensures LatestIndex(rows + [row]) == |rows|
    ensures GetLatest(rows + [row]) == Success(ReadingOf(row))
  {
    var all := rows + [row];
    if |rows| > 0 {
      assert all[..|all| - 1] == rows;
    }
  }

  /** With timestamps T1 < T2 < T3 the latest reading is the third. */
  lemma LatestOfThree(r1: Row, r2: Row, r3: Row)
    requires r1.timestamp < r2.timestamp < r3.timestamp
    ensures GetLatest([r1, r2, r3]) == Success(ReadingOf(r3))
  {
    LatestAfterNewerAppend([r1, r2], r3);
    assert [r1, r2] + [r3] == [r1, r2, r3];
  }

  /**
   * Ingesting a well-formed payload newer than every stored row, then asking
   * for the latest reading, gives back the payload's own values.
   */
  lemma IngestRoundTrip(rows: seq<Row>, data: Object, parse: string -> Option<int>, id: int)
    requires WellFormed(data, parse)
    requires forall i :: 0 <= i < |rows| ==> rows[i].timestamp < parse(data[TimestampKey].s).value
    ensures GetLatest(rows + [Admit(data, parse, id).value]) ==
      Success(Reading(data[MethaneKey].n, data[TemperatureKey].n, data[PhKey].n, data[HeatStatusKey],
                      parse(data[TimestampKey].s).value))
  {
    LatestAfterNewerAppend(rows, Admit(data, parse, id).value);
  }

  // ------------------------------------------------------------------ history

  function EntryOf(row: Row): HistoryEntry {
    HistoryEntry(row.timestamp, row.methane, row.temperature, row.ph)
  }

  /** Every row projected to a history entry, in store order. */
  function Entries(rows: seq<Row>): (out: seq<HistoryEntry>)
    ensures |out| == |rows|
    ensures forall i :: 0 <= i < |rows| ==> out[i] == EntryOf(rows[i])
  {
    if rows == [] then [] else [EntryOf(rows[0])] + Entries(rows[1..])
  }

  /** The entries of the rows whose timestamp is at least `threshold`, in store order. */
  function Window(rows: seq<Row>, threshold: int): (out: seq<HistoryEntry>)
    ensures |out| <= |rows|
    ensures forall i :: 0 <= i < |out| ==> out[i].timestamp >= threshold
  {
    if rows == [] then []
    else (if rows[0].timestamp >= threshold then [EntryOf(rows[0])] else []) + Window(rows[1..], threshold)
  }

  /** The number of rows whose timestamp is at least `threshold`. */
  function CountFrom(rows: seq<Row>, threshold: int): nat {
    if rows == [] then 0
    else (if rows[0].timestamp >= threshold then 1 else 0) + CountFrom(rows[1..], threshold)
  }

  /** The oldest timestamp inside a window of `hours` ending at `now`. */
  function Threshold(hours: int, now: int): (t: int)
    ensures hours >= 0 <==> t <= now
    ensures now - t == SecondsPerHour * hours
  {
    now - hours * SecondsPerHour
  }

  /** The history query; `hours` is the query argument, 24 when absent. */
  function GetHistory(rows: seq<Row>, hours: Option<int>, now: int): (out: seq<HistoryEntry>)
    ensures forall i :: 0 <= i < |out| ==> out[i].timestamp >= Threshold(hours.GetOr(DefaultHours), now)
    ensures |out| == CountFrom(rows, Threshold(hours.GetOr(DefaultHours), now))
    ensures Sub(out, Entries(rows))
  {
    WindowCount(rows, Threshold(hours.GetOr(DefaultHours), now));
    WindowInStoreOrder(rows, Threshold(hours.GetOr(DefaultHours), now));
    Window(rows, Threshold(hours.GetOr(DefaultHours), now))
  }

  /**
   * The answer holds one entry per row inside the window. With the store-order
   * and soundness facts this determines the answer: it is the entries of
   * exactly the qualifying rows, in store order, duplicates included.
   */
  lemma {:induction false} WindowCount(rows: seq<Row>, threshold: int)
    ensures |Window(rows, threshold)| == CountFrom(rows, threshold)
  {
    if rows != [] {
      WindowCount(rows[1..], threshold);
    }
  }

  /** `a` is `b` with some elements left out, the rest in the same order. */
  predicate Sub<T(==)>(a: seq<T>, b: seq<T>)
    decreases |b|
  {
    if b == [] then a == []
    else (a != [] && a[0] == b[0] && Sub(a[1..], b[1..])) || Sub(a, b[1..])
  }

  /** Every row inside the window appears in the answer. */
  lemma {:induction false} WindowComplete(rows: seq<Row>, threshold: int, i: nat)
    requires i < |rows| && rows[i].timestamp >= threshold
    ensures EntryOf(rows[i]) in Window(rows, threshold)
  {
    if i > 0 {
      WindowComplete(rows[1..], threshold, i - 1);
    }
  }

  /** The answer lists rows in store order. */
  lemma {:induction false} WindowInStoreOrder(rows: seq<Row>, threshold: int)
    ensures Sub(Window(rows, threshold), Entries(rows))
  {
    if rows == [] {
    } else {
      WindowInStoreOrder(rows[1..], threshold);
      var rest := Window(rows[1..], threshold);
      assert Entries(rows)[1..] == Entries(rows[1..]);
      if rows[0].timestamp >= threshold {
        assert Window(rows, threshold)[1..] == rest;
      } else {
        assert Window(rows, threshold) == rest;
      }
    }
  }

  /** An in-order selection of entries inside the window is no longer than the count of qualifying rows. */
  lemma {:induction false} SubWindowBound(rows: seq<Row>, threshold: int, out: seq<HistoryEntry>)
    requires Sub(out, Entries(rows))
    requires forall i :: 0 <= i < |out| ==> out[i].timestamp >= threshold
    ensures |out| <= CountFrom(rows, threshold)
  {
    if rows != [] {
      var all := Entries(rows);
      assert all[1..] == Entries(rows[1..]);
      if out != [] && out[0] == all[0] && Sub(out[1..], all[1..]) {
        SubWindowBound(rows[1..], threshold, out[1..]);
        assert out[0].timestamp == rows[0].timestamp;
      } else {
        SubWindowBound(rows[1..], threshold, out);
      }
    }
  }

  /**
   * The history answer is the only in-order selection of the table's entries
   * that lies inside the window and has one entry per qualifying row.
   */
  lemma {:induction false} WindowUnique(rows: seq<Row>, threshold: int, out: seq<HistoryEntry>)
    requires Sub(out, Entries(rows))
    requires forall i :: 0 <= i < |out| ==> out[i].timestamp >= threshold
    requires |out| == CountFrom(rows, threshold)
    ensures out == Window(rows, threshold)
  {
    if rows != [] {
      var all := Entries(rows);
      assert all[1..] == Entries(rows[1..]);
      if out != [] && out[0] == all[0] && Sub(out[1..], all[1..]) {
        assert out[0].timestamp == rows[0].timestamp;
        WindowUnique(rows[1..], threshold, out[1..]);
        assert out == [out[0]] + out[1..];
      } else {
        SubWindowBound(rows[1..], threshold, out);
        WindowUnique(rows[1..], threshold, out);
      }
    }
  }

  /** A wider window (a lower threshold) answers a supersequence. */
  lemma {:induction false} WindowMonotone(rows: seq<Row>, low: int, high: int)
    requires low <= high
    ensures Sub(Window(rows, high), Window(rows, low))
  {
    if rows == [] {
    } else {
      WindowMonotone(rows[1..], low, high);
      var narrow, wide := Window(rows[1..], high), Window(rows[1..], low);
      if rows[0].timestamp >= high {
        assert Window(rows, high) == [EntryOf(rows[0])] + narrow;
        assert Window(rows, low) == [EntryOf(rows[0])] + wide;
        assert Window(rows, high)[1..] == narrow;
        assert Window(rows, low)[1..] == wide;
      } else if rows[0].timestamp >= low {
        assert Window(rows, high) == narrow;
        assert Window(rows, low)[1..] == wide;
      } else {
        assert Window(rows, high) == narrow;
        assert Window(rows, low) == wide;
      }
    }
  }

  /** Asking for more hours never loses an entry nor reorders them. */
  lemma HistoryMonotone(rows: seq<Row>, h1: int, h2: int, now: int)
    requires h1 <= h2
    ensures Sub(GetHistory(rows, Some(h1), now), GetHistory(rows, Some(h2), now))
  {
    WindowMonotone(rows, Threshold(h2, now), Threshold(h1, now));
  }

  /** When every row is inside the window the answer is the whole table. */
  lemma {:induction false} WindowAll(rows: seq<Row>, threshold: int)
    requires forall i :: 0 <= i < |rows| ==> rows[i].timestamp >= threshold
    ensures Window(rows, threshold) == Entries(rows)
  {
    if rows != [] {
      WindowAll(rows[1..], threshold);
    }
  }

  /** When every row is older than the window the answer is empty. */
  lemma {:induction false} WindowNone(rows: seq<Row>, threshold: int)
    requires forall i :: 0 <= i < |rows| ==> rows[i].timestamp < threshold
    ensures Window(rows, threshold) == []
  {
    if rows != [] {
      WindowNone(rows[1..], threshold);
    }
  }

  /** A zero-hour window keeps only rows stamped at `now` or later. */
  lemma HistoryZeroHours(rows: seq<Row>, now: int)
    requires forall i :: 0 <= i < |rows| ==> rows[i].timestamp < now
    ensures GetHistory(rows, Some(0), now) == []
  {
    WindowNone(rows, now);
  }

  /** Without an argument the window is 24 hours. */
  lemma HistoryDefault(rows: seq<Row>, now: int)
    ensures DefaultHours * SecondsPerHour == 86400
    ensures GetHistory(rows, None, now) == Window(rows, now - DefaultHours * SecondsPerHour)
  {
  }
}
