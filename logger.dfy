/** The logger class `TLX00`: its sensor dictionary, its list of data listeners and its
    64-byte request buffer; the parser of a response, the configuration reader and one
    pass of the polling loop. USB transfers and the clock are parameters. */
module Logger {
  import opened Wrappers
  import opened Sensors
  import opened Protocol
  import opened SensorRegistry

  // ---------------------------------------------------------------------------
  // Listeners, devices and readings
  // ---------------------------------------------------------------------------

  /** A data listener. What it does with a reading is not part of this model. */
  datatype Listener = Listener(handle: nat)

  /** An object handed to `registerDataListener`: a data listener or anything else. */
  datatype Candidate = IsListener(listener: Listener) | NotListener

  /** A USB device as the polling loop uses it. */
  class Device {
    var lastTimeDataRead: int
    var deviceErrors: int

    /** `findDevices` starts every device found with both counters at 0. */
    constructor ()
      ensures lastTimeDataRead == 0 && deviceErrors == 0
    {
      lastTimeDataRead := 0;
      deviceErrors := 0;
    }

    /** The bookkeeping of one pass of the polling loop: the time of the last answer with
        data, and the error count, cleared by a delivery and increased by an error; past 10
        errors the device is reset, which leaves the count as it is. */
    method Record(r: StepResult, now: int) returns (reset: bool)
      modifies this
      ensures lastTimeDataRead == if DataArrived(r) then now else old(lastTimeDataRead)
      ensures deviceErrors == NextErrors(old(deviceErrors), KindOf(r))
      ensures reset <==> KindOf(r) == Failure && deviceErrors > 10
    {
      if DataArrived(r) {
        lastTimeDataRead := now;
      }
      match r {
        case NoNewData =>
        case Delivered(_, _) => deviceErrors := 0;
        case _ => deviceErrors := deviceErrors + 1;
      }
      reset := KindOf(r) == Failure && deviceErrors > 10;
    }
  }

  /** A reading handed to the listeners: the decoded frame and the sensor it came from. */
  datatype DataPoint = DataPoint(point: RawPoint, sensor: Sensor)

  /** One `onNewData` call. */
  datatype Notification = Notification(listener: Listener, point: DataPoint)

  /** `parseData` looks up a sensor id that is not in the dictionary (a `KeyError`). */
  datatype ParseError = UnknownSensor(sensorId: int)

  /** The decoded frames of a list of readings. */
  function Readings(points: seq<DataPoint>): seq<RawPoint>
  {
    seq(|points|, i requires 0 <= i < |points| => points[i].point)
  }

  /** The sensor ids of a list of frames. */
  function SensorIds(points: seq<RawPoint>): seq<int>
  {
    seq(|points|, i requires 0 <= i < |points| => points[i].sensorId)
  }

  /** The notifications for one reading: every listener, in list order. */
  function NotifyAll(p: DataPoint, listeners: seq<Listener>): seq<Notification>
  {
    seq(|listeners|, j requires 0 <= j < |listeners| => Notification(listeners[j], p))
  }

  /** The notifications for a list of readings: reading by reading, each to every listener,
      so every reading goes to every listener once. */
  function FanOut(points: seq<DataPoint>, listeners: seq<Listener>): (r: seq<Notification>)
    ensures |r| == |points| * |listeners|
    decreases |points|
  {
    if points == [] then []
    else
      var n, m := |points| - 1, |listeners|;
      assert n * m + m == (n + 1) * m;
      FanOut(points[..n], listeners) + NotifyAll(points[n], listeners)
  }

  /** Position `i * m + j` of an `n` by `m` table lies inside it. */
  lemma RowBefore(i: int, j: int, n: int, m: int)
    requires 0 <= i < n && 0 <= j < m
    ensures i * m + j < n * m
  {
    assert i * m + j < (i + 1) * m;
    assert (i + 1) * m <= n * m;
  }

  /** Notification `i * |listeners| + j` is reading `i` handed to listener `j`: readings
      in order, each to every listener in list order. */
  lemma {:induction false} FanOutAt(points: seq<DataPoint>, listeners: seq<Listener>, i: nat, j: nat)
    requires i < |points| && j < |listeners|
    ensures i * |listeners| + j < |FanOut(points, listeners)|
    ensures FanOut(points, listeners)[i * |listeners| + j] == Notification(listeners[j], points[i])
    decreases |points|
  {
    var n, m := |points| - 1, |listeners|;
    var front := points[..n];
    var rows := FanOut(front, listeners);
    assert FanOut(points, listeners) == rows + NotifyAll(points[n], listeners);
    var k := i * m + j;
    if i < n {
      RowBefore(i, j, n, m);
      FanOutAt(front, listeners, i, j);
      assert front[i] == points[i];
      assert FanOut(points, listeners)[k] == rows[k];
    } else {
      assert k == |rows| + j;
    }
  }

  /** The listener list after the `output` section: an entry is `None` when building the
      listener raised, and is appended only when it is a `Listener`. */
  function RegisterAll(listeners: seq<Listener>, outputs: seq<Option<Candidate>>): (r: seq<Listener>)
    ensures |listeners| <= |r| <= |listeners| + |outputs|
    ensures r[..|listeners|] == listeners
    ensures (forall i :: 0 <= i < |outputs| ==> outputs[i] != Some(NotListener) && outputs[i].Some?) ==> |r| == |listeners| + |outputs|
    ensures (forall i :: 0 <= i < |outputs| ==> outputs[i] == None || outputs[i] == Some(NotListener)) ==> r == listeners
    decreases |outputs|
  {
    if outputs == [] then listeners
    else
      var before := RegisterAll(listeners, outputs[..|outputs| - 1]);
      match outputs[|outputs| - 1]
      case Some(IsListener(l)) => before + [l]
      case _ => before
  }

  /** The output section applies its entries one after the other. */
  lemma {:induction false} RegisterAllSplits(listeners: seq<Listener>, a: seq<Option<Candidate>>, b: seq<Option<Candidate>>)
    ensures RegisterAll(listeners, a + b) == RegisterAll(RegisterAll(listeners, a), b)
    decreases |b|
  {
    if b == [] {
      assert a + b == a;
    } else {
      var front := b[..|b| - 1];
      RegisterAllSplits(listeners, a, front);
      assert (a + b)[..|a + b| - 1] == a + front;
    }
  }

  /** One entry appends its listener when it built one, and nothing otherwise. */
  lemma RegisterAllOne(listeners: seq<Listener>, c: Option<Candidate>)
    ensures RegisterAll(listeners, [c])
         == if c.Some? && c.value.IsListener? then listeners + [c.value.listener] else listeners
  {
    assert [c][..0] == [];
  }

  /** `list.remove(x)`: drops the first occurrence of `x`, and changes nothing when there is none. */
  function RemoveFirst<T(==)>(s: seq<T>, x: T): (r: seq<T>)
    ensures x !in s ==> r == s
    ensures x in s ==> |r| == |s| - 1
    ensures multiset(r) == multiset(s) - multiset{x}
    decreases |s|
  {
    if s == [] then []
    else
      assert s == [s[0]] + s[1..];
      if s[0] == x then s[1..] else [s[0]] + RemoveFirst(s[1..], x)
  }

  /** The elements before and after the removed one keep their order. */
  lemma {:induction false} RemoveFirstAt<T>(s: seq<T>, x: T, i: nat)
    requires i < |s| && s[i] == x && x !in s[..i]
    ensures RemoveFirst(s, x) == s[..i] + s[i + 1..]
    decreases i
  {
    if i > 0 {
      assert s[0] in s[..i];
      assert s[1..][..i - 1] == s[..i][1..];
      RemoveFirstAt(s[1..], x, i - 1);
      assert s[..i] == [s[0]] + s[1..][..i - 1];
    }
  }

  // ---------------------------------------------------------------------------
  // The device error counter of the polling loop
  // ---------------------------------------------------------------------------

  /** How one pass of the polling loop ended: no new data, readings delivered, or an error. */
  datatype StepKind = Idle | Success | Failure

  /** `deviceErrors` after one pass: cleared by a delivery, increased by an error. */
  function NextErrors(errors: int, k: StepKind): (e: int)
    ensures k == Failure ==> e > errors
    ensures k == Success ==> e == 0
    ensures k == Idle ==> e == errors
  {
    match k
    case Idle => errors
    case Success => 0
    case Failure => errors + 1
  }

  /** `deviceErrors` after a sequence of passes. */
  function ErrorsAfter(errors: int, ks: seq<StepKind>): int
    decreases |ks|
  {
    if ks == [] then errors else NextErrors(ErrorsAfter(errors, ks[..|ks| - 1]), ks[|ks| - 1])
  }

  function FailureCount(ks: seq<StepKind>): nat
    decreases |ks|
  {
    if ks == [] then 0 else FailureCount(ks[..|ks| - 1]) + (if ks[|ks| - 1] == Failure then 1 else 0)
  }

  /** Without a delivery, the counter grows by the number of errors. */
  lemma {:induction false} ErrorsCountFailures(errors: int, ks: seq<StepKind>)
    requires Success !in ks
    ensures ErrorsAfter(errors, ks) == errors + FailureCount(ks)
    decreases |ks|
  {
    if ks != [] {
      assert ks == ks[..|ks| - 1] + [ks[|ks| - 1]];
      ErrorsCountFailures(errors, ks[..|ks| - 1]);
    }
  }

  /** A delivery forgets every earlier error. */
  lemma {:induction false} SuccessClearsErrors(errors: int, front: seq<StepKind>, back: seq<StepKind>)
    ensures ErrorsAfter(errors, front + [Success] + back) == ErrorsAfter(0, back)
    decreases |back|
  {
    var ks := front + [Success] + back;
    if back == [] {
      assert ks[..|ks| - 1] == front;
    } else {
      assert ks[..|ks| - 1] == front + [Success] + back[..|back| - 1];
      SuccessClearsErrors(errors, front, back[..|back| - 1]);
    }
  }

  /** Starting from 0 (a device just found), the `n`-th error in a row resets the device
      exactly when `n` exceeds 10; a reset does not clear the counter, so every further
      error resets it again until a delivery succeeds. */
  lemma ResetAfterElevenErrors(n: nat)
    requires n > 0
    ensures ErrorsAfter(0, seq(n, _ => Failure)) > 10 <==> n > 10
  {
    var ks := seq(n, _ => Failure);
    ErrorsCountFailures(0, ks);
    FailuresAreCounted(n);
  }

  lemma {:induction false} FailuresAreCounted(n: nat)
    ensures FailureCount(seq(n, _ => Failure)) == n
    decreases n
  {
    if n > 0 {
      assert seq(n, _ => Failure)[..n - 1] == seq(n - 1, _ => Failure);
      FailuresAreCounted(n - 1);
    }
  }

  // ---------------------------------------------------------------------------
  // One pass of the polling loop
  // ---------------------------------------------------------------------------

  /** What one write/read exchange with the device produced. */
  datatype Transfer = TransferFailed | Received(data: Buffer)

  /** How one pass of the polling loop ended: the exchange with the device raised, the
      device had nothing new, the readings were delivered, or parsing them raised. */
  datatype StepResult =
    | TransferError
    | NoNewData
    | Delivered(points: seq<DataPoint>, log: seq<Notification>)
    | ParseFailed(error: ParseError)

  function KindOf(r: StepResult): StepKind
  {
    match r
    case NoNewData => Idle
    case Delivered(_, _) => Success
    case _ => Failure
  }

  /** The device answered with new data (whether or not it could be parsed). */
  predicate DataArrived(r: StepResult)
  {
    r.Delivered? || r.ParseFailed?
  }

  /** Some pass of `rs` read data from the device. */
  predicate AnyArrived(rs: seq<StepResult>)
  {
    exists i :: 0 <= i < |rs| && DataArrived(rs[i])
  }

  /** One more pass updates the counter left by the passes before it. */
  lemma ErrorsSnoc(errors: int, rs: seq<StepResult>, r: StepResult)
    ensures ErrorsAfter(errors, Kinds(rs + [r])) == NextErrors(ErrorsAfter(errors, Kinds(rs)), KindOf(r))
  {
    assert Kinds(rs + [r])[..|rs|] == Kinds(rs);
  }

  /** One more pass read data exactly when it or an earlier one did. */
  lemma AnyArrivedSnoc(rs: seq<StepResult>, r: StepResult)
    ensures AnyArrived(rs + [r]) <==> AnyArrived(rs) || DataArrived(r)
  {
    if AnyArrived(rs) {
      var i :| 0 <= i < |rs| && DataArrived(rs[i]);
      assert (rs + [r])[i] == rs[i];
    }
    if DataArrived(r) {
      assert (rs + [r])[|rs|] == r;
    }
  }

  function Kinds(rs: seq<StepResult>): seq<StepKind>
  {
    seq(|rs|, i requires 0 <= i < |rs| => KindOf(rs[i]))
  }

  /** The device has nothing new to report: the first two bytes of the response are 0. */
  predicate NothingNew(data: Buffer) { data[0] == 0 && data[1] == 0 }

  /** Some reading's sensor id is not among the `known` ones. */
  predicate HasUnknown(points: seq<RawPoint>, known: set<int>)
  {
    exists i :: 0 <= i < |points| && points[i].sensorId !in known
  }

  /** How a pass ended, given what the device answered: a failed exchange is an error, a
      response starting with two zero bytes is no new data, and any other response is
      parsed; the readings delivered are those of the response, each handed to every
      listener. Parsing raises exactly when detection is off and the response holds a
      reading of a sensor whose id is not among the `known` ones. */
  predicate Answered(t: Transfer, r: StepResult, listeners: seq<Listener>, detect: bool, known: set<int>)
  {
    (r.TransferError? <==> t.TransferFailed?)
    && (r.NoNewData? <==> t.Received? && NothingNew(t.data))
    && (r.Delivered? ==>
          t.Received? && Readings(r.points) == Points(t.data) && r.log == FanOut(r.points, listeners))
    && (r.ParseFailed? <==>
          t.Received? && !NothingNew(t.data) && !detect
          && HasUnknown(Points(t.data), known))
  }

  /** The sensor ids one pass looks up: those of the response, when it holds new data. */
  function PassIds(t: Transfer): seq<int>
  {
    if t.Received? && !NothingNew(t.data) then SensorIds(Points(t.data)) else []
  }

  /** The sensor ids looked up over several passes, pass by pass. */
  function ArrivedIds(ts: seq<Transfer>): seq<int>
    decreases |ts|
  {
    if ts == [] then [] else ArrivedIds(ts[..|ts| - 1]) + PassIds(ts[|ts| - 1])
  }

  /** Each of the passes `rs` ended as its exchange in `ts` says. */
  ghost predicate AllAnswered(ts: seq<Transfer>, rs: seq<StepResult>, listeners: seq<Listener>,
                              detect: bool, known: set<int>)
  {
    |rs| <= |ts| && forall k :: 0 <= k < |rs| ==> Answered(ts[k], rs[k], listeners, detect, known)
  }

  /** The readings delivered by the passes `rs` carry the sensor objects of `sensors`. */
  ghost predicate DeliveredKnown(rs: seq<StepResult>, sensors: map<int, Sensor>)
  {
    forall k :: 0 <= k < |rs| && rs[k].Delivered? ==> Known(rs[k].points, sensors)
  }

  /** One more pass answered as its exchange says extends the passes before it. */
  lemma AnsweredExtend(ts: seq<Transfer>, rs: seq<StepResult>, r: StepResult, listeners: seq<Listener>,
                        detect: bool, known: set<int>)
    requires |rs| < |ts|
    requires AllAnswered(ts, rs, listeners, detect, known)
    requires Answered(ts[|rs|], r, listeners, detect, known)
    ensures AllAnswered(ts, rs + [r], listeners, detect, known)
  {
    forall k | 0 <= k < |rs| + 1
      ensures Answered(ts[k], (rs + [r])[k], listeners, detect, known)
    {
      if k < |rs| {
        assert (rs + [r])[k] == rs[k];
      }
    }
  }

  /** The readings delivered so far keep their sensor objects when the dictionary only
      grows, and one more pass adds its own. */
  lemma KnownExtend(rs: seq<StepResult>, r: StepResult, before: map<int, Sensor>, after: map<int, Sensor>)
    requires DeliveredKnown(rs, before)
    requires Kept(before, after)
    requires r.Delivered? ==> Known(r.points, after)
    ensures DeliveredKnown(rs + [r], after)
  {
    forall k | 0 <= k < |rs| + 1 && (rs + [r])[k].Delivered?
      ensures Known((rs + [r])[k].points, after)
    {
      if k < |rs| {
        assert (rs + [r])[k] == rs[k];
      }
    }
  }

  /** One more pass adds its lookups to those of the passes before it. */
  lemma ArrivedStep(table: SensorTable, ts: seq<Transfer>, i: nat)
    requires i < |ts|
    ensures GuessUnknown(GuessUnknown(table, ArrivedIds(ts[..i])), PassIds(ts[i]))
         == GuessUnknown(table, ArrivedIds(ts[..i + 1]))
  {
    assert ts[..i + 1][..i] == ts[..i];
    GuessUnknownAppend(table, ArrivedIds(ts[..i]), PassIds(ts[i]));
  }

  /** A configuration file after parsing: its `sensors`, `calibration` and `output`
      sections (an absent section is empty) and its `DetectUnknownSensors` setting. */
  datatype Config = Config(
    sensors: seq<SensorEntry>,
    calibration: seq<CalibrationEntry>,
    output: seq<Option<Candidate>>,
    detectUnknownSensors: Option<bool>)

  // ---------------------------------------------------------------------------
  // The logger
  // ---------------------------------------------------------------------------

  class TLX00 {
    var listeners: seq<Listener>
    var sensors: map<int, Sensor>
    const requestBuffer: array<Byte>
    var detectUnknownSensors: bool
    /** Every sensor object stored so far, with the id it was stored under. Its keys are
        the sensor objects that the configuration may change. */
    ghost var owner: map<Sensor, int>

    /** The request buffer holds 64 bytes and no sensor object is stored under two ids. */
    ghost predicate Valid()
      reads this
    {
      requestBuffer.Length == BUFFER_SIZE
      && forall k :: k in sensors ==> sensors[k] in owner && owner[sensors[k]] == k
    }

    /** The sensor dictionary as a value. */
    function Table(): SensorTable
      reads this, sensors.Values
    {
      TableOf(sensors)
    }

    /** `TLX00(params)`: no listeners, no sensors, a zeroed request buffer and detection of
        unknown sensors on; then the configuration file, when one is given. */
    constructor (config: Option<Config>)
      ensures Valid() && fresh(requestBuffer) && requestBuffer[..] == seq(BUFFER_SIZE, _ => 0)
      ensures config.None? ==> listeners == [] && sensors == map[] && detectUnknownSensors
      ensures config.Some? ==>
        Table() == ApplyCalibrationSection(ApplySensorSection(map[], config.value.sensors), config.value.calibration)
        && listeners == RegisterAll([], config.value.output)
        && detectUnknownSensors == (if config.value.detectUnknownSensors.Some? then config.value.detectUnknownSensors.value else true)
    {
      listeners := [];
      sensors := map[];
      owner := map[];
      requestBuffer := new Byte[BUFFER_SIZE](_ => 0);
      detectUnknownSensors := true;
      new;
      assert Table() == map[];
      if config.Some? {
        ReadConfig(config.value);
      }
    }

    /** Stores a sensor object that is not yet in the dictionary. */
    method PutSensor(id: int, s: Sensor)
      requires Valid() && s !in owner
      modifies this
      ensures Valid() && sensors == old(sensors)[id := s] && owner.Keys == old(owner.Keys) + {s}
      ensures listeners == old(listeners) && detectUnknownSensors == old(detectUnknownSensors)
      ensures Table() == old(Table())[id := s.Value()]
    {
      TableOfPut(sensors, id, s);
      sensors := sensors[id := s];
      owner := owner[s := id];
    }

    /** `addSensor(id, name, sensortype)`: a new sensor object under `id`, of the kind
        the parity of `id` suggests. */
    method AddSensor(id: int, name: string, sensorType: string)
      requires Valid()
      modifies this
      ensures Valid() && listeners == old(listeners) && detectUnknownSensors == old(detectUnknownSensors)
      ensures id in sensors && fresh(sensors[id]) && sensors == old(sensors)[id := sensors[id]]
      ensures owner.Keys == old(owner.Keys) + {sensors[id]}
      ensures Table() == AddSensorSpec(old(Table()), id, name, sensorType)
    {
      var s: Sensor;
      if id % 2 == 0 {
        s := new Sensor.Temperature(id, sensorType, name);
      } else {
        s := new Sensor.Humidity(id, sensorType, name);
      }
      PutSensor(id, s);
    }

    /** `clearRequestBuffer`: zeroes the five bytes a request uses, leaves the rest. */
    method ClearRequestBuffer()
      requires Valid()
      modifies requestBuffer
      ensures requestBuffer[..5] == [0, 0, 0, 0, 0] && requestBuffer[5..] == old(requestBuffer[5..])
    {
      for i := 0 to 5
        invariant forall j :: 0 <= j < i ==> requestBuffer[j] == 0
        invariant forall j :: i <= j < BUFFER_SIZE ==> requestBuffer[j] == old(requestBuffer[j])
      {
        requestBuffer[i] := 0;
      }
    }

    /** The request part of `setTime`: command 4 followed by the device time, the seconds
        since the device epoch, little endian. A time outside 32 bits makes `to_bytes`
        raise before anything is sent; the result is then `false`. */
    method SetTimeRequest(now: real) returns (ok: bool)
      requires Valid()
      modifies requestBuffer
      ensures ok <==> 0 <= now.Floor - TIME_OFFSET < 0x1_0000_0000
      ensures requestBuffer[0] == 4 && requestBuffer[5..] == old(requestBuffer[5..])
      ensures ok ==> LittleEndian32(requestBuffer[1..5]) == now.Floor - TIME_OFFSET
      ensures !ok ==> requestBuffer[1..5] == [0, 0, 0, 0]
    {
      ClearRequestBuffer();
      requestBuffer[0] := 4;
      var t := now.Floor - TIME_OFFSET;
      if !(0 <= t < 0x1_0000_0000) {
        return false;
      }
      var tb := ToLittleEndian32(t);
      for i := 0 to 4
        invariant requestBuffer[0] == 4 && requestBuffer[5..] == old(requestBuffer[5..])
        invariant forall j :: 0 <= j < i ==> requestBuffer[j + 1] == tb[j]
      {
        requestBuffer[i + 1] := tb[i];
      }
      assert requestBuffer[1..5] == tb;
      return true;
    }

    /** `registerDataListener`: appends the object when it is a listener, ignores it otherwise. */
    method RegisterDataListener(candidate: Candidate)
      requires Valid()
      modifies this
      ensures Valid() && sensors == old(sensors) && detectUnknownSensors == old(detectUnknownSensors)
      ensures listeners == if candidate.IsListener? then old(listeners) + [candidate.listener] else old(listeners)
    {
      if candidate.IsListener? {
        listeners := listeners + [candidate.listener];
      }
    }

    /** `unregisterDataListener`: removes the first occurrence; an absent listener is ignored. */
    method UnregisterDataListener(listener: Listener)
      requires Valid()
      modifies this
      ensures Valid() && sensors == old(sensors) && detectUnknownSensors == old(detectUnknownSensors)
      ensures listeners == RemoveFirst(old(listeners), listener)
    {
      listeners := RemoveFirst(listeners, listener);
    }

    /** The frame branch of `parseData`: decodes the frame at `pos` and looks up its
        sensor; with detection on, an unknown id is first added by `addSensor(id)`. */
    method ReadFrame(data: Buffer, pos: int) returns (r: Result<DataPoint, ParseError>)
      requires Valid() && FrameAt(data, pos)
      modifies this
      ensures Valid() && listeners == old(listeners) && detectUnknownSensors == old(detectUnknownSensors)
      ensures var id := DecodeFrame(data, pos).sensorId;
        (sensors == old(sensors) || (id !in old(sensors) && id in sensors && sensors == old(sensors)[id := sensors[id]]))
        && (r.Ok? <==> id in sensors)
        && (r.Ok? ==> r.value == DataPoint(DecodeFrame(data, pos), sensors[id]))
        && (r.Err? ==> r.error == UnknownSensor(id))
        && (detectUnknownSensors ==>
              r.Ok? && Table() == if id in old(Table()) then old(Table()) else AddSensorSpec(old(Table()), id, UNKNOWN, UNKNOWN))
        && (!detectUnknownSensors ==> sensors == old(sensors))
    {
      var sensorId := LittleEndian16(data[pos + 1], data[pos + 2]);
      var rawValue := BigEndian16(data[pos + 3], data[pos + 4]);
      var timestamp := LittleEndian32(data[pos + 5..pos + 9]);
      var signal: Option<int> := None;
      if data[pos] == 10 {
        signal := Some(data[pos + 9] as int);
      }
      if detectUnknownSensors && sensorId !in sensors {
        AddSensor(sensorId, UNKNOWN, UNKNOWN);
      }
      if sensorId !in sensors {
        return Err(UnknownSensor(sensorId));
      }
      r := Ok(DataPoint(RawPoint(sensorId, rawValue, timestamp + TIME_OFFSET, signal), sensors[sensorId]));
    }

    /** `parseData`: scans the response and returns its readings, each with its sensor.
        With detection on, an unknown id is first added by `addSensor(id)`; with detection
        off, the first unknown id raises `KeyError` and no reading is returned. */
    method ParseData(data: Buffer) returns (r: Result<seq<DataPoint>, ParseError>)
      requires Valid()
      modifies this
      ensures listeners == old(listeners) && detectUnknownSensors == old(detectUnknownSensors)
      ensures Parsed(data, old(sensors), old(Table()), r)
    {
      ghost var initial, initialTable := sensors, Table();
      var points: seq<DataPoint> := [];
      ghost var starts: seq<nat> := [];
      var pos := -1;
      while pos < 63
        invariant -1 <= pos <= 63
        invariant listeners == old(listeners) && detectUnknownSensors == old(detectUnknownSensors)
        invariant Parsing(data, starts, points, pos + 1, initial, initialTable)
        decreases 63 - pos
      {
        var outcome;
        outcome, points, starts, pos := ScanAt(data, pos + 1, starts, points, initial, initialTable);
        if outcome.Some? {
          return outcome.value;
        }
      }
      r := Ok(points);
      assert Starts(data, pos + 1) == [];
      ScanDone(data, starts, points, pos + 1, initial, initialTable);
    }

    /** One pass of the scan loop in `ParseData`, at position `pos`: padding and bytes that
        start no frame are skipped, an end marker ends the scan, and a frame is read, or
        raises for an unknown sensor. When the scan goes on, `last` is the position the
        pass ended at, and the loop goes on right behind it. */
    method ScanAt(data: Buffer, pos: nat, ghost starts: seq<nat>, points: seq<DataPoint>,
                  ghost initial: map<int, Sensor>, ghost initialTable: SensorTable)
        returns (outcome: Option<Result<seq<DataPoint>, ParseError>>, nextPoints: seq<DataPoint>,
                 ghost nextStarts: seq<nat>, last: int)
      requires pos < BUFFER_SIZE && Parsing(data, starts, points, pos, initial, initialTable)
      modifies this
      ensures listeners == old(listeners) && detectUnknownSensors == old(detectUnknownSensors)
      ensures outcome.Some? ==> Parsed(data, initial, initialTable, outcome.value)
      ensures outcome.None? ==>
        pos <= last < BUFFER_SIZE && Parsing(data, nextStarts, nextPoints, last + 1, initial, initialTable)
    {
      outcome, nextPoints, nextStarts, last := None, points, starts, pos;
      if data[pos] == 0 {
        // padding
      } else if data[pos] == 255 {
        assert Starts(data, pos) == [];
        ScanDone(data, starts, points, pos, initial, initialTable);
        return Some(Ok(points)), points, starts, pos;
      } else if (data[pos] == 9 || data[pos] == 10) && pos < 55 {
        var frame := ScanFrameAt(data, pos, starts, points, initial, initialTable);
        if frame.Err? {
          return Some(Err(frame.error)), points, starts, pos;
        }
        return None, points + [frame.value], starts + [pos], pos + 8;
      }
      ScanSkip(data, starts, points, pos, initial, initialTable);
    }

    /** What the scan in `ParseData` keeps true: it has reached position `p`, with the
        readings of the frames before `p`, every one of a sensor in the dictionary; the
        dictionary is the one at the start plus, with detection on, the sensors added for
        unknown ids. */
    ghost predicate Parsing(data: Buffer, starts: seq<nat>, points: seq<DataPoint>, p: nat,
                            initial: map<int, Sensor>, initialTable: SensorTable)
      reads this, sensors.Values
    {
      Valid() && ScanState(data, starts, points, p, initial, initialTable, sensors, Table(), detectUnknownSensors)
    }

    /** A position that is padding or no frame: the scan goes on at the next one. */
    lemma ScanSkip(data: Buffer, starts: seq<nat>, points: seq<DataPoint>, pos: nat,
                   initial: map<int, Sensor>, initialTable: SensorTable)
      requires pos < BUFFER_SIZE && data[pos] != END_MARKER && !FrameAt(data, pos)
      requires Parsing(data, starts, points, pos, initial, initialTable)
      ensures Parsing(data, starts, points, pos + 1, initial, initialTable)
    {
      assert Starts(data, pos) == Starts(data, pos + 1);
    }

    /** The scan stopped, at the end of the buffer or at an end marker, where no frame
        follows: the readings are those of the whole response, and every one is of a known
        sensor. */
    lemma ScanDone(data: Buffer, starts: seq<nat>, points: seq<DataPoint>, p: nat,
                   initial: map<int, Sensor>, initialTable: SensorTable)
      requires Parsing(data, starts, points, p, initial, initialTable) && Starts(data, p) == []
      ensures Parsed(data, initial, initialTable, Ok(points))
    {
      assert starts + [] == starts;
      AllKnown(data, points, sensors.Keys);
    }

    /** The frame branch of the scan in `ParseData`, together with what it does to the
        readings collected so far and to the sensor dictionary. */
    method ScanFrameAt(data: Buffer, pos: nat, ghost starts: seq<nat>, ghost points: seq<DataPoint>,
                       ghost initial: map<int, Sensor>, ghost initialTable: SensorTable)
        returns (r: Result<DataPoint, ParseError>)
      requires FrameAt(data, pos) && Parsing(data, starts, points, pos, initial, initialTable)
      modifies this
      ensures listeners == old(listeners) && detectUnknownSensors == old(detectUnknownSensors)
      // the scan goes on at `pos + 8 + 1`: `parseData` adds 8, and the loop then adds 1
      ensures r.Ok? ==> Parsing(data, starts + [pos], points + [r.value], pos + 8 + 1, initial, initialTable)
      ensures r.Err? ==> Parsed(data, initial, initialTable, Err(r.error))
    {
      ScanFrame(data, starts, pos);
      ghost var before, beforeTable := sensors, Table();
      r := ReadFrame(data, pos);
      if r.Err? {
        UnknownFound(data, starts, points, sensors.Keys, pos);
        return;
      }
      FrameAccepted(data, starts, points, pos, initial, initialTable, before, beforeTable, sensors, Table(),
                    detectUnknownSensors, r.value);
    }

    /** `onNewData` for every reading and every listener, in that nesting. */
    method NotifyListeners(points: seq<DataPoint>) returns (log: seq<Notification>)
      ensures log == FanOut(points, listeners)
    {
      log := [];
      for i := 0 to |points|
        invariant log == FanOut(points[..i], listeners)
      {
        for j := 0 to |listeners|
          invariant log == FanOut(points[..i], listeners) + NotifyAll(points[i], listeners)[..j]
        {
          log := log + [Notification(listeners[j], points[i])];
        }
        assert points[..i + 1][..i] == points[..i];
      }
      assert points[..|points|] == points;
    }

    /** The poll request of the polling loop: command 3 in a cleared request buffer. */
    method PollRequest()
      requires Valid()
      modifies requestBuffer
      ensures requestBuffer[..5] == [3, 0, 0, 0, 0] && requestBuffer[5..] == old(requestBuffer[5..])
    {
      ClearRequestBuffer();
      requestBuffer[0] := 3;
    }

    /** What the polling loop does with the answer to a poll request: no new data, or the
        parsed readings handed to every listener, or an error. */
    method ReadAnswer(transfer: Transfer) returns (r: StepResult)
      requires Valid()
      modifies this
      ensures Valid() && listeners == old(listeners) && detectUnknownSensors == old(detectUnknownSensors)
      ensures transfer.TransferFailed? ==> r.TransferError? && sensors == old(sensors)
      ensures transfer.Received? && NothingNew(transfer.data) ==> r.NoNewData? && sensors == old(sensors)
      ensures transfer.Received? && !NothingNew(transfer.data) ==>
        DataArrived(r)
        && ParsedFrom(transfer.data, old(sensors), old(Table()), r.ParseFailed?)
        && (r.Delivered? ==> Readings(r.points) == Points(transfer.data) && r.log == FanOut(r.points, listeners))
      ensures Answered(transfer, r, listeners, detectUnknownSensors, old(sensors).Keys)
      ensures r.Delivered? ==> Known(r.points, sensors)
      ensures Kept(old(sensors), sensors)
      ensures detectUnknownSensors ==> Table() == GuessUnknown(old(Table()), PassIds(transfer))
      ensures !detectUnknownSensors ==> sensors == old(sensors)
    {
      match transfer
      case TransferFailed =>
        r := TransferError;
      case Received(data) =>
        if data[0] == 0 && data[1] == 0 {
          return NoNewData;
        }
        var parsed := ParseData(data);
        if parsed.Err? {
          return ParseFailed(parsed.error);
        }
        var log := NotifyListeners(parsed.value);
        r := Delivered(parsed.value, log);
    }

    /** What `ParseData(data)` promises, `before` and `beforeTable` being the dictionary and
        its value before the call: the dictionary changed as `ParsedFrom` says and kept
        every sensor object; on success the readings are those of the response, each with
        the sensor stored under its id; on failure the error names the first unknown id. */
    ghost predicate Parsed(data: Buffer, before: map<int, Sensor>, beforeTable: SensorTable,
                           r: Result<seq<DataPoint>, ParseError>)
      reads this, sensors.Values
    {
      ParsedFrom(data, before, beforeTable, r.Err?) && Kept(before, sensors)
      && (r.Ok? ==> Readings(r.value) == Points(data) && Known(r.value, sensors))
      && (r.Err? ==> r.error.sensorId !in sensors && FirstUnknown(Points(data), sensors.Keys, r.error.sensorId))
    }

    /** What parsing `data` did to the dictionary `before` (whose value was `beforeTable`):
        with detection on, every unknown id of the response was added by `addSensor(id)`;
        with detection off, nothing changed, and parsing `failed` exactly when the
        response holds a reading of an unknown sensor. */
    ghost predicate ParsedFrom(data: Buffer, before: map<int, Sensor>, beforeTable: SensorTable, failed: bool)
      reads this, sensors.Values
    {
      Valid()
      && (detectUnknownSensors ==> Table() == GuessUnknown(beforeTable, SensorIds(Points(data))))
      && (!detectUnknownSensors ==> sensors == before)
      && (failed <==> !detectUnknownSensors && exists i :: 0 <= i < |Points(data)| && Points(data)[i].sensorId !in sensors)
    }

    /** The inner polling loop for one device: passes go on while readings are delivered
        and stop at the first pass with no new data or with an error; `reset` says whether
        that last pass reset the device. `transfers` lists what the device answers, one
        exchange per pass. */
    method PollDevice(dev: Device, transfers: seq<Transfer>, now: int) returns (results: seq<StepResult>, reset: bool)
      requires Valid()
      modifies this, requestBuffer, dev
      ensures Valid() && listeners == old(listeners) && detectUnknownSensors == old(detectUnknownSensors)
      ensures |results| <= |transfers| && (transfers != [] ==> results != [])
      ensures Polling(dev, transfers, results, now, old(Table()), old(sensors), old(dev.deviceErrors),
                      old(dev.lastTimeDataRead), old(requestBuffer[5..]), Table())
      ensures forall i :: 0 <= i < |results| - 1 ==> results[i].Delivered?
      ensures |results| < |transfers| ==> !results[|results| - 1].Delivered?
      ensures reset <==> results != [] && KindOf(results[|results| - 1]) == Failure && dev.deviceErrors > 10
    {
      results, reset := [], false;
      ghost var table0, sensors0, errors0, time0, tail0 :=
        Table(), sensors, dev.deviceErrors, dev.lastTimeDataRead, requestBuffer[5..];
      while |results| < |transfers|
        invariant |results| <= |transfers| && !reset
        invariant Valid() && listeners == old(listeners) && detectUnknownSensors == old(detectUnknownSensors)
        invariant forall k :: 0 <= k < |results| ==> results[k].Delivered?
        invariant Polling(dev, transfers, results, now, table0, sensors0, errors0, time0, tail0, Table())
        decreases |transfers| - |results|
      {
        var r;
        results, r, reset := PollNext(dev, transfers, results, now, table0, sensors0, errors0, time0, tail0);
        if !r.Delivered? {
          break;
        }
      }
    }

    /** What the passes `results` of `PollDevice` have done, against the state before the
        first pass: the dictionary `sensors0` (as the value `table0`), the device's error
        count `errors0` and time of last data `time0`, and the bytes `tail0` of the request
        buffer after the fifth; `table` is the dictionary now, as a value.
        - each pass ended as its exchange says, parsing failing against the ids of `sensors0`
          (`AllAnswered`);
        - every reading delivered carries the sensor object stored under its id (`DeliveredKnown`);
        - with detection on, the dictionary gained the unknown ids the passes looked up; with
          detection off, it is unchanged;
        - the first five bytes of the request buffer hold the request once a pass was made,
          and the others are unchanged;
        - the error count followed the passes (`ErrorsAfter`), and the time of last data is
          `now` exactly when some pass read data. */
    ghost predicate Polling(dev: Device, transfers: seq<Transfer>, results: seq<StepResult>, now: int,
                            table0: SensorTable, sensors0: map<int, Sensor>, errors0: int, time0: int,
                            tail0: seq<Byte>, table: SensorTable)
      reads this, requestBuffer, dev
    {
      requestBuffer.Length == BUFFER_SIZE
      && AllAnswered(transfers, results, listeners, detectUnknownSensors, sensors0.Keys)
      && DeliveredKnown(results, sensors)
      && (detectUnknownSensors ==> table == GuessUnknown(table0, ArrivedIds(transfers[..|results|])))
      && (!detectUnknownSensors ==> sensors == sensors0)
      && requestBuffer[5..] == tail0
      && (results != [] ==> requestBuffer[..5] == [3, 0, 0, 0, 0])
      && dev.deviceErrors == ErrorsAfter(errors0, Kinds(results))
      && dev.lastTimeDataRead == (if AnyArrived(results) then now else time0)
    }

    /** One step of `PollDevice`: pass number `|done|` appended to the passes `done` before
        it, with the loop's bookkeeping carried over. */
    method PollNext(dev: Device, transfers: seq<Transfer>, done: seq<StepResult>, now: int,
                    ghost table0: SensorTable, ghost sensors0: map<int, Sensor>, ghost errors0: int,
                    ghost time0: int, ghost tail0: seq<Byte>)
      returns (results: seq<StepResult>, r: StepResult, reset: bool)
      requires Valid() && |done| < |transfers|
      requires Polling(dev, transfers, done, now, table0, sensors0, errors0, time0, tail0, Table())
      modifies this, requestBuffer, dev
      ensures results == done + [r]
      ensures Valid() && listeners == old(listeners) && detectUnknownSensors == old(detectUnknownSensors)
      ensures Polling(dev, transfers, results, now, table0, sensors0, errors0, time0, tail0, Table())
      ensures reset <==> KindOf(r) == Failure && dev.deviceErrors > 10
    {
      var i := |done|;
      r, reset := PollPass(dev, transfers[i], now);
      if detectUnknownSensors {
        ArrivedStep(table0, transfers, i);
      }
      AnsweredExtend(transfers, done, r, listeners, detectUnknownSensors, sensors0.Keys);
      KnownExtend(done, r, old(sensors), sensors);
      AnyArrivedSnoc(done, r);
      ErrorsSnoc(errors0, done, r);
      results := done + [r];
    }

    /** One pass of the inner polling loop: send the request, read and handle the answer,
        and record the outcome on the device. */
    method PollPass(dev: Device, transfer: Transfer, now: int) returns (r: StepResult, reset: bool)
      requires Valid()
      modifies this, requestBuffer, dev
      ensures Valid() && listeners == old(listeners) && detectUnknownSensors == old(detectUnknownSensors)
      ensures requestBuffer[..5] == [3, 0, 0, 0, 0] && requestBuffer[5..] == old(requestBuffer[5..])
      ensures Answered(transfer, r, listeners, detectUnknownSensors, old(sensors).Keys)
      ensures r.Delivered? ==> Known(r.points, sensors)
      ensures Kept(old(sensors), sensors)
      ensures transfer.Received? && DataArrived(r) ==>
        ParsedFrom(transfer.data, old(sensors), old(Table()), r.ParseFailed?)
      ensures detectUnknownSensors ==> Table() == GuessUnknown(old(Table()), PassIds(transfer))
      ensures !detectUnknownSensors ==> sensors == old(sensors)
      ensures dev.lastTimeDataRead == if DataArrived(r) then now else old(dev.lastTimeDataRead)
      ensures dev.deviceErrors == NextErrors(old(dev.deviceErrors), KindOf(r))
      ensures reset <==> KindOf(r) == Failure && dev.deviceErrors > 10
    {
      PollRequest();
      r := ReadAnswer(transfer);
      reset := dev.Record(r, now);
    }

    /** `readConfigFile` after the file was parsed: the four sections in file order. */
    method ReadConfig(config: Config)
      requires Valid()
      modifies this, owner.Keys
      ensures Valid()
      ensures Table() == ApplyCalibrationSection(ApplySensorSection(old(Table()), config.sensors), config.calibration)
      ensures listeners == RegisterAll(old(listeners), config.output)
      ensures detectUnknownSensors ==
        if config.detectUnknownSensors.Some? then config.detectUnknownSensors.value else old(detectUnknownSensors)
    {
      ReadSensorSections(config.sensors, config.calibration);
      ReadOutputSection(config.output);
      if config.detectUnknownSensors.Some? {
        detectUnknownSensors := config.detectUnknownSensors.value;
      }
    }

    /** The `sensors` section, then the `calibration` section. */
    method ReadSensorSections(entries: seq<SensorEntry>, calibration: seq<CalibrationEntry>)
      requires Valid()
      modifies this, owner.Keys
      ensures Valid() && listeners == old(listeners) && detectUnknownSensors == old(detectUnknownSensors)
      ensures Table() == ApplyCalibrationSection(ApplySensorSection(old(Table()), entries), calibration)
    {
      ReadSensorSection(entries);
      ReadCalibrationSection(calibration);
    }

    /** The `sensors` section: entries in order, until one raises. */
    method ReadSensorSection(entries: seq<SensorEntry>)
      requires Valid()
      modifies this
      ensures Valid() && listeners == old(listeners) && detectUnknownSensors == old(detectUnknownSensors)
      ensures old(owner.Keys) <= owner.Keys && fresh(owner.Keys - old(owner.Keys))
      ensures Table() == ApplySensorSection(old(Table()), entries)
    {
      var i := 0;
      while i < |entries|
        invariant 0 <= i <= |entries|
        invariant Valid() && listeners == old(listeners) && detectUnknownSensors == old(detectUnknownSensors)
        invariant old(owner.Keys) <= owner.Keys && fresh(owner.Keys - old(owner.Keys))
        invariant ApplySensorSection(Table(), entries[i..]) == ApplySensorSection(old(Table()), entries)
      {
        assert entries[i..][0] == entries[i] && entries[i..][1..] == entries[i + 1..];
        if Malformed(entries[i]) {
          break;
        }
        ReadSensorEntry(entries[i]);
        i := i + 1;
      }
    }

    /** One entry of the `sensors` section that does not raise: new sensor objects for its
        id, and for `id + 1` when the type measures temperature and humidity. */
    method ReadSensorEntry(e: SensorEntry)
      requires Valid() && !Malformed(e)
      modifies this
      ensures Valid() && listeners == old(listeners) && detectUnknownSensors == old(detectUnknownSensors)
      ensures old(owner.Keys) <= owner.Keys && fresh(owner.Keys - old(owner.Keys))
      ensures Table() == StoreSensorEntry(old(Table()), e.id.value, e.sensorType.value, e.name.value)
    {
      var id, sensorType, name := e.id.value, e.sensorType.value, e.name.value;
      ghost var t0 := Table();
      if sensorType in TEMPERATURE_TYPES {
        var s := new Sensor.Temperature(id, sensorType, name);
        PutSensor(id, s);
      } else if sensorType in PAIRED_TYPES {
        var s := new Sensor.Temperature(id, sensorType, name);
        PutSensor(id, s);
        assert Table() == t0[id := TemperatureValue(id, sensorType, name)];
        var h := new Sensor.Humidity(id + 1, sensorType, name);
        ghost var t1 := Table();
        PutSensor(id + 1, h);
        assert Table() == t1[id + 1 := HumidityValue(id + 1, sensorType, name)];
      } else {
        AddSensor(id, name, sensorType);
      }
    }

    /** The `calibration` section: entries in order, each one on its own. */
    method ReadCalibrationSection(entries: seq<CalibrationEntry>)
      requires Valid()
      modifies owner.Keys
      ensures Table() == ApplyCalibrationSection(old(Table()), entries)
    {
      var j := 0;
      while j < |entries|
        invariant 0 <= j <= |entries| && Valid()
        invariant ApplyCalibrationSection(Table(), entries[j..]) == ApplyCalibrationSection(old(Table()), entries)
      {
        assert entries[j..][0] == entries[j] && entries[j..][1..] == entries[j + 1..];
        ReadCalibrationEntry(entries[j]);
        j := j + 1;
      }
    }

    /** One entry of the `calibration` section: its values go to the sensor it names, when
        that sensor is in the dictionary and the entry has values. */
    method ReadCalibrationEntry(c: CalibrationEntry)
      requires Valid()
      modifies owner.Keys
      ensures Table() == ApplyCalibrationEntry(old(Table()), c)
    {
      if c.id.Some? && c.id.value in sensors && c.values.Some? {
        StoreCalibrationValues(c.id.value, c.values.value);
      }
    }

    /** The `values` of one calibration entry, stored into that sensor's calibration values
        until one of them is not a number. */
    method StoreCalibrationValues(id: int, values: seq<(int, Option<real>)>)
      requires Valid() && id in sensors
      modifies sensors[id]
      ensures Table() == old(Table())[id := old(Table())[id].(
        calibrationValues := ApplyValues(old(Table())[id].calibrationValues, values))]
    {
      var s := sensors[id];
      var k := 0;
      while k < |values|
        invariant 0 <= k <= |values|
        invariant ApplyValues(s.calibrationValues, values[k..]) == ApplyValues(old(s.calibrationValues), values)
        invariant s.Value() == old(s.Value()).(calibrationValues := s.calibrationValues)
      {
        assert values[k..][0] == values[k] && values[k..][1..] == values[k + 1..];
        if values[k].1.None? {
          break;
        }
        s.calibrationValues := s.calibrationValues[values[k].0 := values[k].1.value];
        k := k + 1;
      }
      assert forall key :: key in sensors && key != id ==> sensors[key] != s;
      assert forall key :: key in sensors ==> Table()[key] == old(Table())[id := old(Table())[id].(
        calibrationValues := ApplyValues(old(Table())[id].calibrationValues, values))][key];
    }

    /** The `output` section: every entry on its own. */
    method ReadOutputSection(outputs: seq<Option<Candidate>>)
      requires Valid()
      modifies this
      ensures Valid() && sensors == old(sensors) && detectUnknownSensors == old(detectUnknownSensors)
      ensures Table() == old(Table())
      ensures listeners == RegisterAll(old(listeners), outputs)
    {
      var i := 0;
      while i < |outputs|
        invariant 0 <= i <= |outputs|
        invariant Valid() && sensors == old(sensors) && detectUnknownSensors == old(detectUnknownSensors)
        invariant listeners == RegisterAll(old(listeners), outputs[..i])
      {
        assert outputs[..i + 1][..i] == outputs[..i];
        match outputs[i] {
          case None =>
          case Some(o) => RegisterDataListener(o);
        }
        i := i + 1;
      }
      assert outputs[..|outputs|] == outputs;
    }
  }

  /** A dictionary of sensor objects as a value. */
  function TableOf(m: map<int, Sensor>): SensorTable
    reads m.Values
  {
    map k | k in m :: m[k].Value()
  }

  lemma TableOfPut(m: map<int, Sensor>, id: int, s: Sensor)
    ensures TableOf(m[id := s]) == TableOf(m)[id := s.Value()]
  {
    var after := m[id := s];
    assert forall k :: k in after ==> TableOf(after)[k] == TableOf(m)[id := s.Value()][k];
  }

  /** Every reading's sensor is the object the dictionary holds for its id. */
  ghost predicate Known(points: seq<DataPoint>, sensors: map<int, Sensor>)
  {
    forall i :: 0 <= i < |points| ==>
      points[i].point.sensorId in sensors && points[i].sensor == sensors[points[i].point.sensorId]
  }

  /** Every id of `before` is still there, holding the same sensor object. */
  ghost predicate Kept(before: map<int, Sensor>, after: map<int, Sensor>)
  {
    before.Keys <= after.Keys && forall k :: k in before ==> after[k] == before[k]
  }

  /** The scan of `data` has reached position `p`: `starts` are the frames it recognised
      before `p`, and `points` their readings. */
  ghost predicate Scanned(data: Buffer, starts: seq<nat>, points: seq<DataPoint>, p: nat)
  {
    p <= BUFFER_SIZE
    && (forall i :: 0 <= i < |starts| ==> FrameAt(data, starts[i]))
    && starts + Starts(data, p) == Starts(data, 0)
    && Readings(points) == Decoded(data, starts)
  }

  /** `id` is the id of the first reading whose sensor is not in `known`. */
  ghost predicate FirstUnknown(points: seq<RawPoint>, known: set<int>, id: int)
  {
    exists i :: 0 <= i < |points| && points[i].sensorId == id
                && forall j :: 0 <= j < i ==> points[j].sensorId in known
  }

  /** A frame at `pos` that the scan reaches is the next frame recognised, and the next
      position examined is `pos + 9`. */
  lemma ScanFrame(data: Buffer, starts: seq<nat>, pos: nat)
    requires FrameAt(data, pos) && pos < BUFFER_SIZE && starts + Starts(data, pos) == Starts(data, 0)
    ensures (starts + [pos]) + Starts(data, pos + 9) == Starts(data, 0)
  {
    assert Starts(data, pos) == [pos] + Starts(data, pos + 9);
    assert starts + ([pos] + Starts(data, pos + 9)) == (starts + [pos]) + Starts(data, pos + 9);
  }

  /** The scan in `ParseData` as values: it has reached position `p`, with the readings of
      the frames before `p`, every one of a sensor in `sensors`; the dictionary is the one at
      the start plus, with detection on, the sensors added for unknown ids. */
  ghost predicate ScanState(data: Buffer, starts: seq<nat>, points: seq<DataPoint>, p: nat,
                            initial: map<int, Sensor>, initialTable: SensorTable,
                            sensors: map<int, Sensor>, table: SensorTable, detect: bool)
  {
    Scanned(data, starts, points, p) && Known(points, sensors) && Kept(initial, sensors)
    && (detect ==> table == GuessUnknown(initialTable, SensorIds(Readings(points))))
    && (!detect ==> sensors == initial)
  }

  /** A frame whose sensor was found, or added: the scan goes on behind it with one more
      reading. */
  lemma FrameAccepted(data: Buffer, starts: seq<nat>, points: seq<DataPoint>, pos: nat,
                      initial: map<int, Sensor>, initialTable: SensorTable,
                      before: map<int, Sensor>, beforeTable: SensorTable,
                      after: map<int, Sensor>, afterTable: SensorTable, detect: bool, dp: DataPoint)
    requires FrameAt(data, pos) && (starts + [pos]) + Starts(data, pos + 9) == Starts(data, 0)
    requires ScanState(data, starts, points, pos, initial, initialTable, before, beforeTable, detect)
    requires var id := DecodeFrame(data, pos).sensorId;
      id in after
      && (after == before || (id !in before && after == before[id := after[id]]))
      && dp == DataPoint(DecodeFrame(data, pos), after[id])
      && (detect ==> afterTable == if id in beforeTable then beforeTable else AddSensorSpec(beforeTable, id, UNKNOWN, UNKNOWN))
      && (!detect ==> after == before)
    ensures ScanState(data, starts + [pos], points + [dp], pos + 9, initial, initialTable, after, afterTable, detect)
  {
    Extended(data, starts, points, pos, dp);
    ExtendedKnown(points, before, after, dp);
    ExtendedIds(points, dp);
    GuessUnknownSnoc(initialTable, SensorIds(Readings(points)), dp.point.sensorId);
  }

  /** Appending the frame at `pos` to the recognised frames and its reading to the readings. */
  lemma Extended(data: Buffer, starts: seq<nat>, points: seq<DataPoint>, pos: nat, dp: DataPoint)
    requires FrameAt(data, pos) && Scanned(data, starts, points, pos) && dp.point == DecodeFrame(data, pos)
    requires (starts + [pos]) + Starts(data, pos + 9) == Starts(data, 0)
    ensures Scanned(data, starts + [pos], points + [dp], pos + 9)
  {
    var ext := starts + [pos];
    assert forall i :: 0 <= i < |ext| ==> FrameAt(data, ext[i]);
    assert Readings(points + [dp]) == Readings(points) + [dp.point];
  }

  lemma ExtendedIds(points: seq<DataPoint>, dp: DataPoint)
    ensures SensorIds(Readings(points + [dp])) == SensorIds(Readings(points)) + [dp.point.sensorId]
  {
    assert Readings(points + [dp]) == Readings(points) + [dp.point];
  }

  lemma ExtendedKnown(points: seq<DataPoint>, before: map<int, Sensor>, after: map<int, Sensor>, dp: DataPoint)
    requires Known(points, before) && Kept(before, after)
    requires dp.point.sensorId in after && dp.sensor == after[dp.point.sensorId]
    ensures Known(points + [dp], after)
  {
    assert forall i :: 0 <= i < |points| ==> (points + [dp])[i] == points[i];
  }

  /** The frame at `pos` is the first one whose sensor is unknown. */
  lemma UnknownFound(data: Buffer, starts: seq<nat>, points: seq<DataPoint>, known: set<int>, pos: nat)
    requires FrameAt(data, pos) && Scanned(data, starts, points, pos)
    requires (starts + [pos]) + Starts(data, pos + 9) == Starts(data, 0)
    requires forall i :: 0 <= i < |points| ==> points[i].point.sensorId in known
    requires DecodeFrame(data, pos).sensorId !in known
    ensures FirstUnknown(Points(data), known, DecodeFrame(data, pos).sensorId)
    ensures exists i :: 0 <= i < |Points(data)| && Points(data)[i].sensorId !in known
  {
    var all := Starts(data, 0);
    var i := |starts|;
    assert all[i] == pos;
    assert Points(data)[i] == DecodeFrame(data, pos);
    forall j | 0 <= j < i ensures Points(data)[j].sensorId in known {
      assert all[j] == starts[j];
      assert Points(data)[j] == Readings(points)[j] == points[j].point;
    }
  }

  /** No reading's sensor is unknown. */
  lemma AllKnown(data: Buffer, points: seq<DataPoint>, known: set<int>)
    requires Readings(points) == Points(data)
    requires forall i :: 0 <= i < |points| ==> points[i].point.sensorId in known
    ensures forall i :: 0 <= i < |Points(data)| ==> Points(data)[i].sensorId in known
  {
    forall i | 0 <= i < |Points(data)| ensures Points(data)[i].sensorId in known {
      assert Points(data)[i] == Readings(points)[i] == points[i].point;
    }
  }
}
