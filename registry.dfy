/** The logger's `sensors` dictionary seen as a value: which sensor each id maps to after
    `addSensor`, after the readings of a response were looked up, and after the `sensors`
    and `calibration` sections of the configuration were processed. */
module SensorRegistry {
  import opened Wrappers
  import opened Sensors

  /** The `sensors` dictionary, with each sensor object replaced by its fields. */
  type SensorTable = map<int, SensorValue>

  /** Sensor types that the configuration registers as a single temperature sensor. */
  const TEMPERATURE_TYPES: set<string> := {"TL-3TSN", "TSN-50E", "TSN-EXT44", "TSN-33MN"}

  /** Sensor types that the configuration registers as a temperature sensor at `id` and a
      humidity sensor at `id + 1`. */
  const PAIRED_TYPES: set<string> := {"TSN-TH70E", "TSN-TH77ext"}

  /** The name and type `addSensor` uses when it is called with an id alone. */
  const UNKNOWN := "Unknown"

  // ---------------------------------------------------------------------------
  // addSensor: guess the kind of a sensor from the parity of its id
  // ---------------------------------------------------------------------------

  /** The sensor `addSensor` creates: a temperature sensor for an even id, a humidity
      sensor for an odd one (`%` rounds towards minus infinity in Python and is Euclidean
      here; for the divisor 2 both give 0 or 1). */
  function GuessedSensor(id: int, name: string, sensorType: string): (v: SensorValue)
    ensures v.kind == (if id % 2 == 0 then Temperature else Humidity)
    ensures v.id == IntToDecimal(id) && v.name == name && v.manufacturerType == sensorType
  {
    if id % 2 == 0 then TemperatureValue(id, sensorType, name) else HumidityValue(id, sensorType, name)
  }

  /** `addSensor(id, name, sensortype)`: stores the guessed sensor under `id`, replacing
      any sensor stored there, and touches no other id. */
  function AddSensorSpec(table: SensorTable, id: int, name: string, sensorType: string): (r: SensorTable)
    ensures r.Keys == table.Keys + {id}
    ensures r[id] == GuessedSensor(id, name, sensorType)
    ensures forall k :: k in table && k != id ==> r[k] == table[k]
  {
    table[id := GuessedSensor(id, name, sensorType)]
  }

  /** Looking up the readings of one response with detection on: an id not yet in the
      table is added with `addSensor(id)`; ids already there are left alone. */
  function GuessUnknown(table: SensorTable, ids: seq<int>): (r: SensorTable)
    ensures table.Keys <= r.Keys
    decreases |ids|
  {
    if ids == [] then table
    else
      var before := GuessUnknown(table, ids[..|ids| - 1]);
      var id := ids[|ids| - 1];
      if id in before then before else AddSensorSpec(before, id, UNKNOWN, UNKNOWN)
  }

  /** After the lookups the table holds exactly the ids it held and the ids looked up; the
      sensors it held are untouched, and every id it lacked got the guessed sensor. */
  lemma {:induction false} GuessUnknownAdds(table: SensorTable, ids: seq<int>)
    ensures forall k :: k in GuessUnknown(table, ids) <==> k in table || k in ids
    ensures forall k :: k in table ==> GuessUnknown(table, ids)[k] == table[k]
    ensures forall k :: k in GuessUnknown(table, ids) && k !in table ==>
      GuessUnknown(table, ids)[k] == GuessedSensor(k, UNKNOWN, UNKNOWN)
    decreases |ids|
  {
    if ids != [] {
      var front, id := ids[..|ids| - 1], ids[|ids| - 1];
      GuessUnknownAdds(table, front);
      assert ids == front + [id];
      assert forall k :: k in ids <==> k in front || k == id;
    }
  }

  /** Looking up two lists of ids one after the other is looking up their concatenation. */
  lemma {:induction false} GuessUnknownAppend(table: SensorTable, a: seq<int>, b: seq<int>)
    ensures GuessUnknown(table, a + b) == GuessUnknown(GuessUnknown(table, a), b)
    decreases |b|
  {
    if b == [] {
      assert a + b == a;
    } else {
      var front := b[..|b| - 1];
      GuessUnknownAppend(table, a, front);
      assert (a + b)[..|a + b| - 1] == a + front;
    }
  }

  /** One more reading: its id is added unless it is already known. */
  lemma GuessUnknownSnoc(table: SensorTable, ids: seq<int>, id: int)
    ensures GuessUnknown(table, ids + [id])
         == var before := GuessUnknown(table, ids);
            if id in before then before else AddSensorSpec(before, id, UNKNOWN, UNKNOWN)
  {
    assert (ids + [id])[..|ids|] == ids;
  }

  // ---------------------------------------------------------------------------
  // The sensors section of the configuration
  // ---------------------------------------------------------------------------

  /** One entry of the `sensors` section. A field is `None` when reading it raises: the key
      is missing, or the id is not a number. */
  datatype SensorEntry = SensorEntry(id: Option<int>, sensorType: Option<string>, name: Option<string>)

  predicate Malformed(e: SensorEntry)
  {
    e.id.None? || e.sensorType.None? || e.name.None?
  }

  /** One entry of the `sensors` section; `None` when it raises. */
  function ApplySensorEntry(table: SensorTable, e: SensorEntry): (r: Option<SensorTable>)
    ensures r.None? <==> Malformed(e)
    ensures r.Some? ==> r.value == StoreSensorEntry(table, e.id.value, e.sensorType.value, e.name.value)
  {
    if Malformed(e) then None else Some(StoreSensorEntry(table, e.id.value, e.sensorType.value, e.name.value))
  }

  /** An entry that does not raise: a temperature sensor for the single-sensor types, a
      temperature sensor at `id` and a humidity sensor at `id + 1` for the paired types, and
      `addSensor(id, name, type)` for any other type. */
  function StoreSensorEntry(table: SensorTable, id: int, t: string, name: string): (r: SensorTable)
    ensures t in TEMPERATURE_TYPES ==>
      r.Keys == table.Keys + {id} && r[id] == TemperatureValue(id, t, name)
      && forall k :: k in table && k != id ==> r[k] == table[k]
    ensures t in PAIRED_TYPES ==>
      r.Keys == table.Keys + {id, id + 1}
      && r[id] == TemperatureValue(id, t, name)
      && r[id + 1] == HumidityValue(id + 1, t, name)
      && forall k :: k in table && k != id && k != id + 1 ==> r[k] == table[k]
    ensures t !in TEMPERATURE_TYPES + PAIRED_TYPES ==> r == AddSensorSpec(table, id, name, t)
  {
    if t in TEMPERATURE_TYPES then table[id := TemperatureValue(id, t, name)]
    else if t in PAIRED_TYPES then
      table[id := TemperatureValue(id, t, name)][id + 1 := HumidityValue(id + 1, t, name)]
    else AddSensorSpec(table, id, name, t)
  }

  /** The `sensors` section: entries in order; the first one that raises ends the section. */
  function ApplySensorSection(table: SensorTable, entries: seq<SensorEntry>): (r: SensorTable)
    ensures table.Keys <= r.Keys
    decreases |entries|
  {
    if entries == [] then table
    else match ApplySensorEntry(table, entries[0])
      case None => table
      case Some(next) => ApplySensorSection(next, entries[1..])
  }

  /** An entry that raises aborts the section: the entries behind it have no effect. */
  lemma {:induction false} SensorSectionStopsAtMalformed(table: SensorTable, entries: seq<SensorEntry>, i: nat)
    requires i < |entries| && Malformed(entries[i])
    ensures ApplySensorSection(table, entries) == ApplySensorSection(table, entries[..i])
    decreases i
  {
    if i > 0 {
      var next := ApplySensorEntry(table, entries[0]);
      assert entries[..i][0] == entries[0] && entries[..i][1..] == entries[1..][..i - 1];
      if next.Some? {
        SensorSectionStopsAtMalformed(next.value, entries[1..], i - 1);
      }
    }
  }

  /** A section of one entry: that entry is stored, unless it raises. */
  lemma SensorSectionOne(table: SensorTable, e: SensorEntry)
    ensures ApplySensorSection(table, [e])
         == if Malformed(e) then table else StoreSensorEntry(table, e.id.value, e.sensorType.value, e.name.value)
  {
    assert [e][1..] == [];
  }

  /** Entries that do not raise are stored one after the other, and the section goes on
      with the entries behind them. */
  lemma {:induction false} SensorSectionSplits(table: SensorTable, front: seq<SensorEntry>, back: seq<SensorEntry>)
    requires forall i :: 0 <= i < |front| ==> !Malformed(front[i])
    ensures ApplySensorSection(table, front + back)
         == ApplySensorSection(ApplySensorSection(table, front), back)
    decreases |front|
  {
    if front != [] {
      var e := front[0];
      assert (front + back)[0] == e && (front + back)[1..] == front[1..] + back;
      SensorSectionSplits(StoreSensorEntry(table, e.id.value, e.sensorType.value, e.name.value), front[1..], back);
    } else {
      assert front + back == back;
    }
  }

  // ---------------------------------------------------------------------------
  // The calibration section of the configuration
  // ---------------------------------------------------------------------------

  /** One `id`/`values` entry of the `calibration` section. `id` is `None` when reading it
      raises, `values` when the key is missing; a value is `None` when `float(v)` raises. */
  datatype CalibrationEntry = CalibrationEntry(id: Option<int>, values: Option<seq<(int, Option<real>)>>)

  /** The indices that a list of calibration values mentions. */
  function ValueKeys(values: seq<(int, Option<real>)>): set<int>
  {
    set i | 0 <= i < |values| :: values[i].0
  }

  /** Stores the values one after the other; the first one that is not a number raises and
      leaves the rest unstored. Indices the list does not mention keep their values. */
  function ApplyValues(cal: map<int, real>, values: seq<(int, Option<real>)>): (r: map<int, real>)
    ensures cal.Keys <= r.Keys <= cal.Keys + ValueKeys(values)
    ensures forall k :: k in cal && k !in ValueKeys(values) ==> r[k] == cal[k]
    decreases |values|
  {
    if values == [] then cal
    else match values[0].1
      case None => cal
      case Some(v) =>
        assert ValueKeys(values) == {values[0].0} + ValueKeys(values[1..]) by {
          forall k | k in ValueKeys(values) ensures k in {values[0].0} + ValueKeys(values[1..]) {
            var i :| 0 <= i < |values| && values[i].0 == k;
            if i > 0 { assert values[1..][i - 1].0 == k; }
          }
        }
        ApplyValues(cal[values[0].0 := v], values[1..])
  }

  /** A value that is not a number stops the entry: the values behind it are not stored. */
  lemma {:induction false} ValuesStopAtBadValue(cal: map<int, real>, values: seq<(int, Option<real>)>, i: nat)
    requires i < |values| && values[i].1.None?
    ensures ApplyValues(cal, values) == ApplyValues(cal, values[..i])
    decreases i
  {
    if i > 0 {
      assert values[..i][0] == values[0] && values[..i][1..] == values[1..][..i - 1];
      if values[0].1.Some? {
        ValuesStopAtBadValue(cal[values[0].0 := values[0].1.value], values[1..], i - 1);
      }
    }
  }

  /** `calibrationValues[n] = float(v)`: a value that is a number, when every value before
      it is one too and no later value has the same index, is what the index holds in the
      end. */
  lemma {:induction false} ValuesStored(cal: map<int, real>, values: seq<(int, Option<real>)>, i: nat)
    requires i < |values|
    requires forall j :: 0 <= j <= i ==> values[j].1.Some?
    requires forall j :: i < j < |values| ==> values[j].0 != values[i].0
    ensures values[i].0 in ApplyValues(cal, values)
    ensures ApplyValues(cal, values)[values[i].0] == values[i].1.value
    decreases i
  {
    var rest := values[1..];
    if i == 0 {
      assert forall j :: 0 <= j < |rest| ==> rest[j] == values[j + 1];
      assert values[0].0 !in ValueKeys(rest);
    } else {
      assert forall j :: 0 <= j <= i - 1 ==> rest[j] == values[j + 1];
      assert forall j :: i - 1 < j < |rest| ==> rest[j] == values[j + 1];
      ValuesStored(cal[values[0].0 := values[0].1.value], rest, i - 1);
    }
  }

  /** One calibration entry: skipped when its id cannot be read or names no sensor,
      otherwise its values are stored into that sensor's calibration values. */
  function ApplyCalibrationEntry(table: SensorTable, c: CalibrationEntry): (r: SensorTable)
    ensures r.Keys == table.Keys
    ensures forall k :: k in table ==> r[k] == table[k].(calibrationValues := r[k].calibrationValues)
    ensures c.id.None? || c.id.value !in table ==> r == table
    ensures forall k :: k in table && (c.id.None? || k != c.id.value) ==> r[k] == table[k]
    ensures c.id.Some? && c.id.value in table && c.values.Some? ==>
      r[c.id.value].calibrationValues == ApplyValues(table[c.id.value].calibrationValues, c.values.value)
    ensures c.id.Some? && c.id.value in table && c.values.None? ==> r == table
  {
    match c.id
    case None => table
    case Some(id) =>
      if id !in table then table
      else match c.values
        case None => table
        case Some(values) =>
          table[id := table[id].(calibrationValues := ApplyValues(table[id].calibrationValues, values))]
  }

  /** The `calibration` section: every entry in order, each one on its own. */
  function ApplyCalibrationSection(table: SensorTable, entries: seq<CalibrationEntry>): (r: SensorTable)
    ensures r.Keys == table.Keys
    ensures forall k :: k in table ==> r[k] == table[k].(calibrationValues := r[k].calibrationValues)
    decreases |entries|
  {
    if entries == [] then table
    else ApplyCalibrationSection(ApplyCalibrationEntry(table, entries[0]), entries[1..])
  }

  /** A section of one entry is that entry. */
  lemma CalibrationSectionOne(table: SensorTable, c: CalibrationEntry)
    ensures ApplyCalibrationSection(table, [c]) == ApplyCalibrationEntry(table, c)
  {
    assert [c][1..] == [];
  }

  lemma {:induction false} CalibrationSectionSplits(table: SensorTable, front: seq<CalibrationEntry>, back: seq<CalibrationEntry>)
    ensures ApplyCalibrationSection(table, front + back)
         == ApplyCalibrationSection(ApplyCalibrationSection(table, front), back)
    decreases |front|
  {
    if front != [] {
      assert (front + back)[0] == front[0] && (front + back)[1..] == front[1..] + back;
      CalibrationSectionSplits(ApplyCalibrationEntry(table, front[0]), front[1..], back);
    } else {
      assert front + back == back;
    }
  }

  /** An entry whose id cannot be read, or that names no sensor, is skipped: the section
      has the same effect as without it, so the entries behind it still apply. */
  lemma CalibrationSkipsEntry(table: SensorTable, entries: seq<CalibrationEntry>, i: nat)
    requires i < |entries|
    requires entries[i].id.None? || entries[i].id.value !in ApplyCalibrationSection(table, entries[..i])
    ensures ApplyCalibrationSection(table, entries)
         == ApplyCalibrationSection(table, entries[..i] + entries[i + 1..])
  {
    assert entries == entries[..i] + ([entries[i]] + entries[i + 1..]);
    CalibrationSectionSplits(table, entries[..i], [entries[i]] + entries[i + 1..]);
    CalibrationSectionSplits(table, entries[..i], entries[i + 1..]);
    var mid := ApplyCalibrationSection(table, entries[..i]);
    assert ([entries[i]] + entries[i + 1..])[1..] == entries[i + 1..];
    assert ApplyCalibrationEntry(mid, entries[i]) == mid;
  }
}
