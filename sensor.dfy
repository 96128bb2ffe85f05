/** Sensors of the Arexx dataloggers: the `Sensor` class hierarchy, its fluent setters and
    the fixed calibration polynomials that turn a raw reading into a physical value. */
module Sensors {
  import opened Wrappers

  /** The closed set of sensor classes. `Plain` stands for `Sensor` and `ArexxSensor`, which
      convert nothing; the other two are the Arexx temperature and humidity sensors. */
  datatype Kind = Plain | Temperature | Humidity

  /** What `rawToCooked` raises on a sensor that has no conversion. */
  datatype SensorError = NotImplementedError

  /** The fields of a sensor object at one moment. */
  datatype SensorValue = SensorValue(
    kind: Kind,
    id: string,
    name: string,
    sensorType: string,
    manufacturerType: string,
    unit: string,
    calibrationValues: map<int, real>)

  const TSN_TH70E := "TSN-TH70E"
  const TL_3TSN := "TL-3TSN"

  // ---------------------------------------------------------------------------
  // str(id) for integer ids, and its inverse int(s)
  // ---------------------------------------------------------------------------

  predicate IsDigit(c: char) { '0' <= c <= '9' }

  predicate IsDigits(s: string) { forall i :: 0 <= i < |s| ==> IsDigit(s[i]) }

  /** Decimal text of a non-negative integer, as Python's `str` writes it. */
  function NatToDecimal(n: nat): (s: string)
    ensures 1 <= |s| && IsDigits(s)
    ensures s[0] == '0' ==> n == 0
    decreases n
  {
    if n < 10 then [('0' as int + n) as char]
    else NatToDecimal(n / 10) + [('0' as int + n % 10) as char]
  }

  /** `str(id)` on an integer: an optional minus sign, then the digits of its magnitude. */
  function IntToDecimal(i: int): (s: string)
    ensures 1 <= |s|
    ensures (s[0] == '-') <==> i < 0
    ensures IsDigits(if i < 0 then s[1..] else s)
  {
    if i < 0 then "-" + NatToDecimal(-i) else NatToDecimal(i)
  }

  /** Python's `int` on a string of decimal digits. */
  function DecimalToNat(s: string): nat
    requires IsDigits(s)
  {
    if s == [] then 0
    else 10 * DecimalToNat(s[..|s| - 1]) + (s[|s| - 1] as int - '0' as int)
  }

  /** Python's `int` on a string of decimal digits with an optional leading minus sign. */
  function DecimalToInt(s: string): int
    requires 1 <= |s| && IsDigits(if s[0] == '-' then s[1..] else s)
  {
    if s[0] == '-' then 0 - DecimalToNat(s[1..]) as int else DecimalToNat(s)
  }

  lemma {:induction false} NatDecimalRoundTrip(n: nat)
    ensures DecimalToNat(NatToDecimal(n)) == n
    decreases n
  {
    var s := NatToDecimal(n);
    if n >= 10 {
      NatDecimalRoundTrip(n / 10);
      assert s[..|s| - 1] == NatToDecimal(n / 10);
    }
  }

  /** An integer id survives `int(str(id))`, so two sensors built from different
      integer ids never get the same `id` string. */
  lemma IntDecimalRoundTrip(i: int)
    ensures DecimalToInt(IntToDecimal(i)) == i
  {
    if i < 0 {
      NatDecimalRoundTrip(-i);
      assert IntToDecimal(i)[1..] == NatToDecimal(-i);
    } else {
      NatDecimalRoundTrip(i);
    }
  }

  // ---------------------------------------------------------------------------
  // The fields a freshly constructed sensor has
  // ---------------------------------------------------------------------------

  /** `Sensor(id)`: the id as text, the name equal to it, everything else "unknown". */
  function BaseValue(id: int): SensorValue
  {
    SensorValue(Plain, IntToDecimal(id), IntToDecimal(id), "unknown", "unknown", "unknown", map[])
  }

  /** `ArexxTemperatureSensor(id, manufacturerType, name)`. */
  function TemperatureValue(id: int, manufacturerType: string, name: string): SensorValue
  {
    BaseValue(id).(kind := Temperature, sensorType := "Temperature", unit := "°C",
                   name := name, manufacturerType := manufacturerType)
  }

  /** `ArexxHumiditySensor(id, manufacturerType, name)`. */
  function HumidityValue(id: int, manufacturerType: string, name: string): SensorValue
  {
    BaseValue(id).(kind := Humidity, sensorType := "Humidity", unit := "%RH",
                   name := name, manufacturerType := manufacturerType)
  }

  // ---------------------------------------------------------------------------
  // Calibration formulas
  // ---------------------------------------------------------------------------

  /** `calibrationValues.get(k, 0.0)`: an offset that was never configured reads as zero. */
  function CalibrationOffset(cal: map<int, real>, k: int): (c: real)
    ensures k in cal ==> c == cal[k]
    ensures k !in cal ==> c == 0.0
  {
    if k in cal then cal[k] else 0.0
  }

  /** Conversion of an Arexx temperature sensor; only two manufacturer types have a formula. */
  function TemperatureToCooked(manufacturerType: string, cal: map<int, real>, raw: int): (r: Option<real>)
    ensures r.Some? <==> manufacturerType == TSN_TH70E || manufacturerType == TL_3TSN
  {
    var c0 := CalibrationOffset(cal, 0);
    var c1 := CalibrationOffset(cal, 1);
    if manufacturerType == TSN_TH70E then Some(-39.6 + c0 + raw as real * (0.01 + c1))
    else if manufacturerType == TL_3TSN then Some(c0 + raw as real * (0.0078125 + c1))
    else None
  }

  /** Conversion of an Arexx humidity sensor: the generic calibration polynomial with the
      published humidity coefficients. */
  function HumidityToCooked(cal: map<int, real>, raw: int): (r: real)
    ensures r == Polynomial(HumidityCoefficients, cal, raw)
  {
    var c0 := CalibrationOffset(cal, 0);
    var c1 := CalibrationOffset(cal, 1);
    var c2 := CalibrationOffset(cal, 2);
    -4.0 + c0 + raw as real * (0.0405 + c1) + (raw * raw) as real * (-0.0000028 + c2)
  }

  /** Coefficients of a second-order calibration polynomial. */
  datatype Coefficients = Coefficients(p0: real, p1: real, p2: real)

  /** The generic calibration: `p0 + c0 + raw*(p1 + c1) + raw^2*(p2 + c2)`, where the
      offsets `c0`, `c1`, `c2` are the configured calibration values 0, 1 and 2. */
  function Polynomial(p: Coefficients, cal: map<int, real>, raw: int): real
  {
    var x := raw as real;
    p.p0 + CalibrationOffset(cal, 0) + x * (p.p1 + CalibrationOffset(cal, 1))
      + x * x * (p.p2 + CalibrationOffset(cal, 2))
  }

  /** The published coefficients of the legacy temperature sensors, by manufacturer type. */
  function TemperatureCoefficients(manufacturerType: string): Option<Coefficients>
  {
    if manufacturerType == TSN_TH70E then Some(Coefficients(-39.6, 0.01, 0.0))
    else if manufacturerType == TL_3TSN then Some(Coefficients(0.0, 0.0078125, 0.0))
    else None
  }

  const HumidityCoefficients := Coefficients(-4.0, 0.0405, -0.0000028)

  /** The temperature formulas are first-order instances of the generic polynomial; the
      second-order offset (calibration value 2) plays no part in them. */
  lemma TemperatureIsPolynomial(manufacturerType: string, cal: map<int, real>, raw: int)
    ensures TemperatureToCooked(manufacturerType, cal, raw)
      == match TemperatureCoefficients(manufacturerType)
         case None => None
         case Some(p) => Some(Polynomial(p, cal - {2}, raw))
  {
  }

  /** With no calibration configured, raw value 100 reads as -4.0 + 4.05 - 0.028 %RH. */
  lemma HumidityWithoutCalibration()
    ensures HumidityToCooked(map[], 100) == -4.0 + 4.05 - 0.028
  {
  }

  /** Calibration value 0 is a pure offset: setting it to `c` shifts every reading by `c`. */
  lemma OffsetShiftsReading(manufacturerType: string, cal: map<int, real>, c: real, raw: int)
    ensures HumidityToCooked(cal[0 := c], raw) == HumidityToCooked(cal - {0}, raw) + c
    ensures TemperatureToCooked(manufacturerType, cal[0 := c], raw).Some? ==>
      TemperatureToCooked(manufacturerType, cal[0 := c], raw).value
        == TemperatureToCooked(manufacturerType, cal - {0}, raw).value + c
  {
  }

  // ---------------------------------------------------------------------------
  // The sensor objects
  // ---------------------------------------------------------------------------

  /** A sensor object. Its class (`kind`) never changes; the setters and `Calibrate`
      assign one field each and return the object itself, so that calls can be chained. */
  class Sensor {
    const kind: Kind
    var id: string
    var name: string
    var sensorType: string
    var manufacturerType: string
    var unit: string
    var calibrationValues: map<int, real>

    function Value(): SensorValue
      reads this
    {
      SensorValue(kind, id, name, sensorType, manufacturerType, unit, calibrationValues)
    }

    /** `Sensor(id)`, and `ArexxSensor(id)`, which adds nothing to it. */
    constructor (id: int)
      ensures Value() == BaseValue(id)
    {
      kind := Plain;
      new;
      InitFields(id);
    }

    /** `ArexxTemperatureSensor(id, manufacturerType, name)`. */
    constructor Temperature(id: int, manufacturerType: string, name: string)
      ensures Value() == TemperatureValue(id, manufacturerType, name)
    {
      kind := Kind.Temperature;
      new;
      InitFields(id);
      var s := SetType("Temperature");
      s := s.SetUnit("°C");
      s := s.SetName(name);
      s := s.SetManufacturerType(manufacturerType);
    }

    /** `ArexxHumiditySensor(id, manufacturerType, name)`. */
    constructor Humidity(id: int, manufacturerType: string, name: string)
      ensures Value() == HumidityValue(id, manufacturerType, name)
    {
      kind := Kind.Humidity;
      new;
      InitFields(id);
      var s := SetType("Humidity");
      s := s.SetUnit("%RH");
      s := s.SetName(name);
      s := s.SetManufacturerType(manufacturerType);
    }

    /** The field assignments of `Sensor.__init__`. */
    method InitFields(id: int)
      modifies this
      ensures Value() == BaseValue(id).(kind := kind)
    {
      this.id := IntToDecimal(id);
      name := this.id;
      sensorType := "unknown";
      manufacturerType := "unknown";
      unit := "unknown";
      calibrationValues := map[];
    }

    method SetName(name: string) returns (self: Sensor)
      modifies this
      ensures self == this && Value() == old(Value()).(name := name)
    {
      this.name := name;
      self := this;
    }

    method SetType(sensorType: string) returns (self: Sensor)
      modifies this
      ensures self == this && Value() == old(Value()).(sensorType := sensorType)
    {
      this.sensorType := sensorType;
      self := this;
    }

    method SetManufacturerType(manufacturerType: string) returns (self: Sensor)
      modifies this
      ensures self == this && Value() == old(Value()).(manufacturerType := manufacturerType)
    {
      this.manufacturerType := manufacturerType;
      self := this;
    }

    method SetUnit(unit: string) returns (self: Sensor)
      modifies this
      ensures self == this && Value() == old(Value()).(unit := unit)
    {
      this.unit := unit;
      self := this;
    }

    /** Replaces the whole calibration map. */
    method Calibrate(calibrationValues: map<int, real>) returns (self: Sensor)
      modifies this
      ensures self == this && Value() == old(Value()).(calibrationValues := calibrationValues)
    {
      this.calibrationValues := calibrationValues;
      self := this;
    }

    /** `rawToCooked`: the plain classes raise `NotImplementedError`; a humidity sensor always
        yields a value; a temperature sensor yields one only for the two manufacturer types
        that have a formula, and `None` otherwise. */
    function RawToCooked(raw: int): (r: Result<Option<real>, SensorError>)
      reads this
      ensures r.Err? <==> kind == Plain
      ensures kind == Kind.Humidity ==> r == Ok(Some(HumidityToCooked(calibrationValues, raw)))
      ensures kind == Kind.Temperature ==> r == Ok(TemperatureToCooked(manufacturerType, calibrationValues, raw))
    {
      match kind
      case Plain => Err(NotImplementedError)
      case Temperature => Ok(TemperatureToCooked(manufacturerType, calibrationValues, raw))
      case Humidity => Ok(Some(HumidityToCooked(calibrationValues, raw)))
    }
  }
}
