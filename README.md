# pylarexx datalogger core in Dafny

This project models the core of pylarexx, a Python driver for the Arexx TL-300 and
TL-500 USB dataloggers. The modelled parts are the logger class `TLX00`
(`datalogger/Logger.py`) and the sensor classes (`datalogger/Sensor.py`):

- `wrappers.dfy` holds the `Option` and `Result` datatypes.
- `sensor.dfy` (module `Sensors`) is the `Sensor` class. It has a constant `kind` that
  stands for the Python subclass: `Sensor`/`ArexxSensor`, `ArexxTemperatureSensor` or
  `ArexxHumiditySensor`. It also holds the constructors, the fluent setters,
  `calibrate`, and `rawToCooked` with its calibration polynomials over `real`.
  The decimal text `str(id)` that a sensor stores as its id is modelled too, and shown
  to round-trip through `int`.
- `protocol.dfy` (module `Protocol`) is the 64-byte response buffer. It covers:
  - the 9- and 10-byte frames, with a little-endian id, a big-endian value, and a
    little-endian device time plus `TIME_OFFSET`;
  - the scan of `parseData` as a specification function (`Starts`/`Points`);
  - the frame encoder a device would use, with round-trip lemmas in both directions;
  - the little-endian time bytes of the set-time request.
- `registry.dfy` (module `SensorRegistry`) is the `sensors` dictionary as a value. It
  covers the parity guess of `addSensor`, the lookups of `parseData` with detection of
  unknown sensors, and the rules of the `sensors` and `calibration` sections of the
  configuration file.
- `logger.dfy` (module `Logger`) is the `TLX00` class. Its fields are:
  - `sensors`: a map to `Sensor` objects;
  - `listeners`: a sequence;
  - `requestBuffer`: a 64-byte `array`;
  - `detectUnknownSensors`.

  Its methods are `parseData` (a `while` loop over the buffer), `addSensor`,
  `clearRequestBuffer`, the buffer part of `setTime`, the processing of an already
  parsed configuration, `registerDataListener`/`unregisterDataListener`, and the inner
  polling loop of `loop` for one device. The latter updates a `Device` object's
  `deviceErrors` and `lastTimeDataRead`.

Each imperative method is proved against a specification function on values:
- `ParseData` against `Points` and `GuessUnknown`;
- the configuration reader against `ApplySensorSection` and `ApplyCalibrationSection`;
- the listener calls against `FanOut`;
- the error counter against `NextErrors`/`ErrorsAfter`.

The lemmas beside those functions state what the source promises.

The model takes the following as parameters:
- The clock: `now`.
- What a USB exchange returned: a `Transfer`, either a failure or a 64-byte buffer.
- The configuration file, as a `Config` value in which every field whose reading raises
  is `None`.

### Notes on the code

- **Frame advance.** The marker byte of a frame (9 or 10) is the frame's length.
  Yet `datalogger/Logger.py:184` always moves on by 9 positions, whatever the marker.
  So the signal byte of a 10-byte frame is examined again as a possible marker.
  - `Protocol.SignalByteReadAsMarker` shows a two-frame response read as a reading no
    device sent.
  - `Protocol.ScanByLengthEncodedFrames` shows that advancing by the frame length would
    read every encoded response back.
  - The round trip of the scan as written (`Protocol.ResponseRoundTrip`) holds whenever
    no reading has a signal byte of 9, 10 or 255.
- **Too many errors.** After more than 10 errors in a row, `datalogger/Logger.py:225-227`
  resets the device but does not clear the counter. So every further error resets it
  again (`Logger.ResetAfterElevenErrors`).
- **`TIME_OFFSET`.** The comment at `datalogger/Logger.py:25` calls 946681200 the
  timestamp of 2000-01-01 00:00:00 and names no time zone. That value is midnight in
  UTC+1; midnight UTC is 946684800. The model uses the code's constant.

## Model

| member | source | states |
|---|---|---|
| Sensors.NatToDecimal | datalogger/Sensor.py:22 | `str(n)` of a non-negative integer is a non-empty string of digits that starts with 0 only for 0 |
| Sensors.IntToDecimal | datalogger/Sensor.py:22 | `str(id)` is non-empty, starts with `-` exactly for a negative id, and is digits otherwise |
| Sensors.NatDecimalRoundTrip | datalogger/Sensor.py:22 | `int(str(n)) == n` for every natural number |
| Sensors.IntDecimalRoundTrip | datalogger/Sensor.py:22 | `int(str(id)) == id` for every integer, so distinct integer ids give distinct id strings |
| Sensors.Sensor.constructor | datalogger/Sensor.py:18-27 | a new sensor has the id as text, the name equal to it, type, manufacturer type and unit "unknown", and no calibration values |
| Sensors.Sensor.InitFields | datalogger/Sensor.py:22-27 | the field assignments of `__init__`, leaving the class unchanged |
| Sensors.Sensor.Temperature | datalogger/Sensor.py:118-120 | an `ArexxTemperatureSensor` has type "Temperature", unit "°C", the given name and manufacturer type, and the base fields otherwise |
| Sensors.Sensor.Humidity | datalogger/Sensor.py:133-135 | an `ArexxHumiditySensor` has type "Humidity", unit "%RH", the given name and manufacturer type, and the base fields otherwise |
| Sensors.Sensor.SetName | datalogger/Sensor.py:29-31 | changes the name and no other field, and returns the object itself |
| Sensors.Sensor.SetType | datalogger/Sensor.py:34-36 | changes the type and no other field, and returns the object itself |
| Sensors.Sensor.SetManufacturerType | datalogger/Sensor.py:38-40 | changes the manufacturer type and no other field, and returns the object itself |
| Sensors.Sensor.SetUnit | datalogger/Sensor.py:42-44 | changes the unit and no other field, and returns the object itself |
| Sensors.Sensor.Calibrate | datalogger/Sensor.py:50-56 | replaces the whole calibration map, changes nothing else, and returns the object itself |
| Sensors.CalibrationOffset | datalogger/Sensor.py:138-140 | `calibrationValues.get(k, 0.0)`: the configured value when there is one, 0.0 otherwise |
| Sensors.TemperatureToCooked | datalogger/Sensor.py:122-128 | yields a value exactly for the manufacturer types TSN-TH70E and TL-3TSN, and `None` for every other type |
| Sensors.TemperatureIsPolynomial | datalogger/Sensor.py:122-128 | both temperature formulas are the generic calibration polynomial with the published coefficients; calibration value 2 plays no part |
| Sensors.HumidityToCooked | datalogger/Sensor.py:137-141 | the humidity conversion is the generic calibration polynomial with coefficients -4.0, 0.0405 and -0.0000028 |
| Sensors.HumidityWithoutCalibration | datalogger/Sensor.py:137-141 | with no calibration and raw value 100 the humidity is -4.0 + 4.05 - 0.028 |
| Sensors.OffsetShiftsReading | datalogger/Sensor.py:123-141 | calibration value 0 shifts every temperature and humidity reading by exactly its amount |
| Sensors.Sensor.RawToCooked | datalogger/Sensor.py:47-48 | raises `NotImplementedError` exactly for the base classes; a temperature sensor gives `TemperatureToCooked` (a value exactly for the two types with a formula); a humidity sensor gives `HumidityToCooked` |
| Protocol.ToLittleEndian32 | datalogger/Logger.py:130-131 | `to_bytes(4, 'little')`: four bytes that read back, little endian, as the number |
| Protocol.LittleEndian32Bytes | datalogger/Logger.py:175 | any four bytes read as a little-endian number fit in 32 bits and are written back as the same bytes |
| Protocol.DecodeFrame | datalogger/Logger.py:171-178 | the reading of a frame at a marker below 55: every byte read lies inside the buffer, the fields fit their widths, and a signal is present exactly for marker 10 |
| Protocol.EncodeFrame | datalogger/Logger.py:171-178 | the bytes of a frame are as many as its marker says, and start with that marker |
| Protocol.DecodeEncoded | datalogger/Logger.py:171-178 | decoding the bytes of an encoded reading gives the reading back |
| Protocol.EncodeDecoded | datalogger/Logger.py:171-178 | encoding the reading of a frame gives back the frame's bytes |
| Protocol.Next | datalogger/Logger.py:162-186 | the scan moves strictly forward and stays inside the 64 bytes |
| Protocol.Starts | datalogger/Logger.py:162-186 | every position the scan recognises is a marker 9 or 10 below 55, at or after where it started |
| Protocol.StartsBound | datalogger/Logger.py:171-184 | frames are recognised only below 55 and 9 apart, so at most `(54 - p) / 9 + 1` from position `p` on |
| Protocol.StartsSpaced | datalogger/Logger.py:184 | recognised frames lie at least 9 bytes apart |
| Protocol.ExaminedFromStart | datalogger/Logger.py:162-163 | the scan examines positions from its start up to 63 only |
| Protocol.EndMarkerStopsScan | datalogger/Logger.py:166-168 | once the scan examines a 255, no frame at or after it is returned |
| Protocol.ExaminedFrameIsRead | datalogger/Logger.py:171 | a marker below 55 that the scan examines is read as a frame |
| Protocol.FrameSkipsEightBytes | datalogger/Logger.py:184 | after a frame at `q` the scan examines none of `q+1..q+8` and does examine `q+9`, the signal byte of a 10-byte frame |
| Protocol.EncodeFramesLength | datalogger/Logger.py:171 | readings whose frames all start below 55 fit into the buffer |
| Protocol.ScanOneFrame | datalogger/Logger.py:171-185 | an encoded frame whose signal byte is not 9, 10 or 255 is read back, and the scan goes on right behind it |
| Protocol.ScanEncodedFrames | datalogger/Logger.py:162-186 | the scan reads back, in order, every reading of a buffer made of encoded frames whose signal bytes are not 9, 10 or 255 |
| Protocol.EncodedTail | datalogger/Logger.py:171-185 | the first frame of such a buffer is read back and the rest of the buffer is again such a buffer |
| Protocol.PointsFromCons | datalogger/Logger.py:182 | the reading of a recognised frame comes before the readings behind it |
| Protocol.PointsFrom | datalogger/Logger.py:162-186 | one reading per recognised frame from position `p` on, in order, each decoded from the bytes at its frame |
| Protocol.Points | datalogger/Logger.py:154-187 | the readings `parseData` returns, one per recognised frame of the whole response: at most 7 |
| Protocol.ResponseRoundTrip | datalogger/Logger.py:154-187 | `parseData` of a response made of encoded frames, the end marker and padding returns exactly those readings, when no signal byte is 9, 10 or 255 |
| Protocol.ExampleShortFrame | datalogger/Logger.py:171-182 | a 9-byte frame for sensor 1 with value 10 at device time 0 reads as one reading at Unix time 946681200 with no signal |
| Protocol.ExampleFrameWithSignal | datalogger/Logger.py:176-178 | the same reading in a 10-byte frame carries signal 7 |
| Protocol.RescanExampleEncodes | datalogger/Logger.py:171-178 | the example response is the encoding of two readings, one with signal 9, followed by the end marker |
| Protocol.SignalByteReadAsMarker | datalogger/Logger.py:184 | on that response the scan returns a reading from sensor 521 that no device sent, and loses the reading of sensor 2 |
| Protocol.RescanStarts | datalogger/Logger.py:184 | on that response the scan recognises frames at 0 and at 9, the signal byte |
| Protocol.RescanFirstFrame | datalogger/Logger.py:171-178 | the first frame of that response decodes to the reading with signal 9 |
| Protocol.RescanSecondFrame | datalogger/Logger.py:171-178 | the frame read at the signal byte decodes to sensor 521 with value 0 |
| Protocol.StartsByLength | datalogger/Logger.py:184 | the scan that advances by the frame length recognises only markers below 55, in order |
| Protocol.ScanByLengthEncodedFrames | datalogger/Logger.py:184 | advancing by the frame length would read back every buffer of encoded frames, whatever their signal bytes |
| Protocol.ByLengthTail | datalogger/Logger.py:184 | with that advance the first frame is read back and the rest of the buffer is again made of encoded frames |
| Protocol.ByLengthOneFrame | datalogger/Logger.py:184 | with that advance one encoded frame is read back and the scan goes on right behind it |
| Protocol.SignalByteSkippedByLength | datalogger/Logger.py:184 | with that advance the example response reads back as the two readings it was built from |
| SensorRegistry.GuessedSensor | datalogger/Logger.py:88-94 | an even id gets a temperature sensor and an odd id a humidity sensor, with the given name and type |
| SensorRegistry.AddSensorSpec | datalogger/Logger.py:88-94 | `addSensor` stores the guessed sensor under its id and changes no other key |
| SensorRegistry.GuessUnknownAdds | datalogger/Logger.py:179-180 | after the lookups of a response the dictionary holds exactly the old ids and the ids read; old sensors are untouched and new ids have the guessed sensor |
| SensorRegistry.GuessUnknownSnoc | datalogger/Logger.py:179-180 | one more reading adds its id only when it is not yet known |
| SensorRegistry.GuessUnknown | datalogger/Logger.py:179-180 | looking up ids never removes an id from the dictionary |
| SensorRegistry.GuessUnknownAppend | datalogger/Logger.py:179-180 | looking up two lists of ids one after the other is looking up their concatenation |
| SensorRegistry.ApplySensorEntry | datalogger/Logger.py:45-56 | an entry raises exactly when a field cannot be read; otherwise it stores its sensors |
| SensorRegistry.StoreSensorEntry | datalogger/Logger.py:50-56 | the four temperature types store one temperature sensor; TSN-TH70E and TSN-TH77ext store a temperature sensor at `id` and a humidity sensor at `id+1` and touch no other key; any other type goes through `addSensor` |
| SensorRegistry.ApplySensorSection | datalogger/Logger.py:43-58 | the sensors section never removes an id |
| SensorRegistry.SensorSectionOne | datalogger/Logger.py:45-56 | a section of one entry stores that entry as `StoreSensorEntry` says, unless reading it raises |
| SensorRegistry.SensorSectionSplits | datalogger/Logger.py:44-58 | entries that do not raise are stored one after the other, and the section goes on with the entries behind them |
| SensorRegistry.SensorSectionStopsAtMalformed | datalogger/Logger.py:44-58 | an entry that raises aborts the section: the entries behind it have no effect |
| SensorRegistry.ApplyValues | datalogger/Logger.py:67-69 | storing values adds only the indices they mention and keeps every other value |
| SensorRegistry.ValuesStopAtBadValue | datalogger/Logger.py:67-71 | a value that is not a number stops its entry: the values behind it are not stored |
| SensorRegistry.ValuesStored | datalogger/Logger.py:67-68 | `calibrationValues[n] = float(v)`: a number whose earlier values are all numbers, and whose index no later value repeats, is what that index holds afterwards |
| SensorRegistry.ApplyCalibrationEntry | datalogger/Logger.py:61-71 | an entry changes only the calibration values, and only of the sensor it names: they become `ApplyValues` of its values; an unreadable or undefined id, or missing values, change nothing |
| SensorRegistry.ApplyCalibrationSection | datalogger/Logger.py:60-71 | the calibration section keeps the ids and changes only calibration values |
| SensorRegistry.CalibrationSectionSplits | datalogger/Logger.py:61 | the section applies its entries one after the other |
| SensorRegistry.CalibrationSectionOne | datalogger/Logger.py:61-71 | a section of one entry is that entry |
| SensorRegistry.CalibrationSkipsEntry | datalogger/Logger.py:62-71 | an entry for an unreadable or undefined id is skipped and the entries behind it still apply |
| Logger.Device.constructor | datalogger/Logger.py:106-108 | a device found starts with both counters at 0 |
| Logger.Device.Record | datalogger/Logger.py:212-228 | records the time of an answer with data, clears the error count on delivery, increases it on an error, and resets past 10 errors |
| Logger.FanOutAt | datalogger/Logger.py:218-220 | notification number `i` times the number of listeners plus `j` is reading `i` handed to listener `j`: readings in order, each to the listeners in registration order |
| Logger.FanOut | datalogger/Logger.py:218-220 | the notifications of the listener loop: every reading goes to every listener, once |
| Logger.RegisterAll | datalogger/Logger.py:74-82 | the output section only appends, and appends one listener for each entry that builds a listener |
| Logger.RegisterAllSplits | datalogger/Logger.py:74-82 | the entries are applied one after the other: reading `a + b` is reading `a`, then `b` |
| Logger.RegisterAllOne | datalogger/Logger.py:76-82 | one entry appends exactly its listener when it builds one, and changes nothing otherwise |
| Logger.RemoveFirst | datalogger/Logger.py:148-152 | `list.remove` drops one occurrence of the listener, and changes nothing when it is absent |
| Logger.RemoveFirstAt | datalogger/Logger.py:150 | the removed occurrence is the first one, and the others keep their order |
| Logger.NextErrors | datalogger/Logger.py:221-224 | an error increases the count, a delivery clears it, and no new data leaves it |
| Logger.ErrorsCountFailures | datalogger/Logger.py:221-224 | without a delivery, the count grows by the number of errors |
| Logger.ErrorsSnoc | datalogger/Logger.py:221-224 | one more pass updates the count left by the passes before it as `NextErrors` says |
| Logger.SuccessClearsErrors | datalogger/Logger.py:221 | a delivery forgets every earlier error |
| Logger.FailuresAreCounted | datalogger/Logger.py:224 | `n` errors in a row are `n` errors |
| Logger.ResetAfterElevenErrors | datalogger/Logger.py:224-227 | from a fresh device, the `n`-th error in a row resets it exactly when `n` exceeds 10 |
| Logger.TLX00.constructor | datalogger/Logger.py:27-35 | a new logger has a zeroed 64-byte buffer; with no file it has no sensors or listeners and detection on; with a file it holds what the configuration sections give |
| Logger.TLX00.PutSensor | datalogger/Logger.py:51 | storing a new sensor object changes the dictionary at that id only |
| Logger.TLX00.AddSensor | datalogger/Logger.py:88-94 | stores a new sensor object under the id, as `AddSensorSpec` says, and changes no other key or field |
| Logger.TLX00.ClearRequestBuffer | datalogger/Logger.py:96-99 | zeroes bytes 0 to 4 and leaves bytes 5 to 63 as they were |
| Logger.TLX00.SetTimeRequest | datalogger/Logger.py:127-134 | byte 0 is 4 and bytes 1 to 4 are `floor(now) - 946681200` in little endian; a time outside 32 bits raises, and the result says so |
| Logger.TLX00.RegisterDataListener | datalogger/Logger.py:143-146 | appends a listener and ignores any other object |
| Logger.TLX00.UnregisterDataListener | datalogger/Logger.py:148-152 | removes the first occurrence, and ignores an absent listener |
| Logger.TLX00.ReadFrame | datalogger/Logger.py:173-182 | decodes the frame; with detection on an unknown id is added and the lookup succeeds; with it off an unknown id raises and nothing changes |
| Logger.TLX00.ParseData | datalogger/Logger.py:154-187 | returns exactly the readings of the response, each with its sensor; with detection on every unknown id is added by `addSensor(id)` and old sensors are kept; with it off it raises exactly when a reading's sensor is unknown, naming the first such id |
| Logger.TLX00.ScanAt | datalogger/Logger.py:163-186 | one pass of the loop: padding and other bytes are skipped, 255 ends the scan, and a frame is read or raises |
| Logger.TLX00.ScanSkip | datalogger/Logger.py:164-165 | a byte that starts no frame leaves the readings as they are |
| Logger.TLX00.ScanDone | datalogger/Logger.py:166-168 | where the scan stops, the readings collected are those of the whole response |
| Logger.TLX00.ScanFrameAt | datalogger/Logger.py:171-185 | a frame adds its reading and the scan goes on at `pos + 9`, or the frame's unknown sensor is the first unknown one |
| Logger.ScanFrame | datalogger/Logger.py:184 | a frame that the scan reaches is the next frame recognised |
| Logger.FrameAccepted | datalogger/Logger.py:179-185 | reading a frame keeps the invariant of the scan |
| Logger.Extended | datalogger/Logger.py:182 | appending a frame's reading keeps the collected readings equal to the frames recognised |
| Logger.ExtendedIds | datalogger/Logger.py:182 | the ids of the readings grow by the new reading's id |
| Logger.ExtendedKnown | datalogger/Logger.py:182 | every reading keeps the sensor object stored under its id |
| Logger.UnknownFound | datalogger/Logger.py:179-182 | the frame that raises holds the first reading of an unknown sensor |
| Logger.AllKnown | datalogger/Logger.py:182 | when the scan finishes, every reading's sensor is known |
| Logger.TableOfPut | datalogger/Logger.py:51 | storing an object under an id changes the dictionary's value at that id only |
| Logger.TLX00.NotifyListeners | datalogger/Logger.py:218-220 | calls `onNewData` for every reading and every listener, in that nesting |
| Logger.TLX00.PollRequest | datalogger/Logger.py:204-205 | the poll request is command 3 with bytes 1 to 4 cleared, and bytes 5 to 63 unchanged |
| Logger.TLX00.ReadAnswer | datalogger/Logger.py:206-222 | a failed exchange is an error; first bytes 0 and 0 mean no new data; otherwise the response is parsed as `ParseData` promises, and the readings of the response go to every listener as `FanOut` says; parsing raises exactly when detection is off and some reading's id is not among the ids the dictionary held before the call; delivered readings carry the sensor stored under their id; the dictionary keeps every sensor it held and grows by the lookups of the response |
| Logger.TLX00.PollPass | datalogger/Logger.py:203-228 | one pass: the request buffer is cleared and starts with 3, the rest of it unchanged; the answer is handled as `ReadAnswer` promises (error exactly for a failed exchange, no new data exactly for first bytes 0 and 0, a parse failure exactly for a reading of an id unknown before the pass with detection off, delivered readings equal to the response's, fanned out to the listeners and carrying the sensors stored under their ids); the dictionary keeps every sensor it held; the device's counters are updated as `NextErrors` says |
| Logger.TLX00.PollDevice | datalogger/Logger.py:203-228 | passes go on while readings are delivered and stop at the first pass with no new data or an error; as `Polling` spells out: pass `i` ends as the `i`-th exchange says (`Answered`: error exactly for a failed exchange, no new data exactly for first bytes 0 and 0, a parse failure exactly when detection is off and a reading's id is not among the ids the dictionary held before the first pass, delivered readings equal to the response's and fanned out to every listener); every delivered reading carries the sensor object the dictionary holds under its id at the end; the dictionary grows by the lookups of all passes (`ArrivedIds`) with detection on and is unchanged with it off; `lastTimeDataRead` is `now` exactly when some pass read data; the error count and the reset follow `ErrorsAfter`; bytes 5 to 63 of the request buffer are kept and, after a pass, bytes 0 to 4 are 3, 0, 0, 0, 0 |
| Logger.TLX00.PollNext | datalogger/Logger.py:203-228 | one more pass of the inner loop keeps `Polling`: it extends the per-pass outcomes, the sensors carried by delivered readings, the dictionary lookups, the request buffer and the device counters of the passes before it |
| Logger.TLX00.ReadConfig | datalogger/Logger.py:43-86 | the sensors, calibration and output sections and the detection setting, in file order |
| Logger.TLX00.ReadSensorSections | datalogger/Logger.py:43-71 | the sensors section and then the calibration section |
| Logger.TLX00.ReadSensorSection | datalogger/Logger.py:43-58 | the entries in order, until one raises |
| Logger.TLX00.ReadSensorEntry | datalogger/Logger.py:46-56 | new sensor objects for the entry, as `StoreSensorEntry` says |
| Logger.TLX00.ReadCalibrationSection | datalogger/Logger.py:60-71 | every calibration entry in order, as `ApplyCalibrationSection` says |
| Logger.TLX00.ReadCalibrationEntry | datalogger/Logger.py:62-71 | one calibration entry, as `ApplyCalibrationEntry` says |
| Logger.TLX00.StoreCalibrationValues | datalogger/Logger.py:67-69 | stores the values into that one sensor, until one is not a number, and changes no other sensor |
| Logger.TLX00.ReadOutputSection | datalogger/Logger.py:74-82 | registers each listener built from the output section and leaves the sensors unchanged |

## Left out

- USB I/O is not modelled: `usb.core.find`, `set_configuration`, `write`, `read` and `reset`. An exchange is a `Transfer` parameter, and a reset is the `reset` result of `Device.Record`.
- `findDevices` and `initializeDevices` (device lists and their removal) are not modelled; only the counters that `findDevices` sets are modelled.
- The `send` and `read` part of `setTime` and its `lastTimeSync` are not modelled: it is I/O.
- The outer loop of `loop` is not modelled: the 900-second time-sync schedule, the loop over devices, the stop when no listener is left, and the sleeps are clock and scheduling.
- Reading and YAML-parsing the configuration file are not modelled. The model starts from the parsed sections as a `Config`.
- Building a listener class with `getattr` is not modelled. An output entry is either a candidate object or `None` for an entry that raised.
- Logging is not modelled.
- `DataListener.py`, `pylarexx.py` and `ArexxSensor.readDeviceXML` are not part of this model: they are file and network output, command-line handling, and a disabled XML reader.
- Sensors.Sensor.RawToCooked: computes over exact reals, not IEEE-754 doubles, so float rounding is not modelled.
- Logger.TLX00.ReadAnswer: an exception raised by a listener's `onNewData` is not modelled; in the source it would count as a device error after part of the readings were delivered.
- Logger.TLX00.ReadCalibrationEntry: calibration indices are integers; other YAML key types are not modelled.
- Logger.TLX00.StoreCalibrationValues: a sensor's calibration map is its own, as every constructor makes it. Sharing one dictionary between sensors through `calibrate` is not modelled.
- Logger.TLX00.ReadAnswer: a response that arrives is always a 64-byte `Buffer`. In the source `dev.read(0x81, 64, ...)` may return fewer bytes; then `rawdata[1]` (`datalogger/Logger.py:212`) or `data[pos]` (`datalogger/Logger.py:164`) raises and counts as a device error, possibly after `lastTimeDataRead` was set and some unknown sensors were added. The model has only the failed exchange as an error of the read itself.
- Logger.TLX00.PollDevice: the device's answers are a finite sequence given in advance, so a device that keeps delivering forever is not modelled.
- Logger.Device.Record: `lastTimeDataRead` is set when the pass is recorded, not before `parseData` runs as in the source. Both use the same `now`, and it is set whether or not parsing raises, as in the source.
- Logger.TLX00.SetTimeRequest: `now` is a real number of seconds; `math.floor` is `Floor`.
- Logger.TLX00.ReadConfig: a `DetectUnknownSensors` value is already a boolean; Python's `bool()` of other values is not modelled.
