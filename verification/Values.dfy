/** The three messages in plain terms: the values of their structures, the bits on the wire, the printed tags, and
    the range of every number. Nothing here speaks of schemas; module Agreement says that they agree. */
module Values {
  import opened Options
  import opened Bits
  import opened Wire
  import opened Events

  // ---------------------------------------------------------------- values

  /** Fractions are in 1/65536 s. */
  datatype Stamp = Stamp(sec: int, frac: int)

  datatype Accelleration = Accelleration(x: int, y: int, z: int, index: Option<int>)
  datatype Audio = Audio(volume: int, index: Option<int>)
  datatype Light = Light(daylight: int, infrared: int, index: Option<int>)
  datatype Force = Force(value: int, index: Option<int>)
  datatype Temperature = Temperature(value: int, index: Option<int>)

  datatype Sample = Sample(timeStamp: Option<Stamp>, accelleration: Option<Accelleration>, audio: Option<Audio>,
                           light: Option<Light>, force: Option<Force>, temperature: Option<Temperature>)

  datatype Rates = Rates(acceleration: Option<int>, audio: Option<int>, light: Option<int>,
                         ambientLight: Option<int>, force: Option<int>, temperature: Option<int>)

  datatype Status = Status(sensorConfig: Rates, allSensorConfig: Rates, batteryVoltage: int, currentTime: Stamp, upTime: Stamp)

  datatype Control = Control(sensorConfig: Option<Rates>, newTime: Option<Stamp>)

  // ---------------------------------------------------------------- trees

  /** An optional element as the list of its occurrences. */
  function Listed<T>(o: Option<T>, tree: T -> Dom): seq<Dom> {
    if o.None? then [] else [tree(o.value)]
  }

  function Number(n: int): Dom {
    Val(Int(n))
  }

  function StampTree(t: Stamp): Dom {
    Val(Time(t.sec, t.frac))
  }

  function AccellerationTree(a: Accelleration): Dom {
    Struct([[Number(a.x)], [Number(a.y)], [Number(a.z)], Listed(a.index, Number)])
  }

  function AudioTree(a: Audio): Dom {
    Struct([[Number(a.volume)], Listed(a.index, Number)])
  }

  function LightTree(l: Light): Dom {
    Struct([[Number(l.daylight)], [Number(l.infrared)], Listed(l.index, Number)])
  }

  function ForceTree(f: Force): Dom {
    Struct([[Number(f.value)], Listed(f.index, Number)])
  }

  function TemperatureTree(t: Temperature): Dom {
    Struct([[Number(t.value)], Listed(t.index, Number)])
  }

  function SampleTree(s: Sample): Dom {
    Struct([Listed(s.timeStamp, StampTree), Listed(s.accelleration, AccellerationTree), Listed(s.audio, AudioTree),
            Listed(s.light, LightTree), Listed(s.force, ForceTree), Listed(s.temperature, TemperatureTree)])
  }

  function RateTree(n: int): Dom {
    Struct([[Number(n)]])
  }

  function RatesTree(r: Rates): Dom {
    Struct([Listed(r.acceleration, RateTree), Listed(r.audio, RateTree), Listed(r.light, RateTree),
            Listed(r.ambientLight, RateTree), Listed(r.force, RateTree), Listed(r.temperature, RateTree)])
  }

  function StatusTree(s: Status): Dom {
    Struct([[RatesTree(s.sensorConfig)], [RatesTree(s.allSensorConfig)], [Number(s.batteryVoltage)],
            [StampTree(s.currentTime)], [StampTree(s.upTime)]])
  }

  function ControlTree(c: Control): Dom {
    Struct([Listed(c.sensorConfig, RatesTree), Listed(c.newTime, StampTree)])
  }

  // ---------------------------------------------------------------- ranges

  predicate Within<T>(o: Option<T>, range: T -> bool) {
    o.Some? ==> range(o.value)
  }

  predicate StampInRange(t: Stamp) {
    0 <= t.sec <= 0xFFFF_FFFF && 0 <= t.frac <= 0xFFFF
  }

  predicate SignedByte(n: int) {
    -128 <= n <= 127
  }

  predicate AccellerationInRange(a: Accelleration) {
    && -32768 <= a.x <= 32767 && -32768 <= a.y <= 32767 && -32768 <= a.z <= 32767
    && Within(a.index, SignedByte)
  }

  predicate AudioInRange(a: Audio) {
    0 <= a.volume <= 255 && Within(a.index, SignedByte)
  }

  predicate LightInRange(l: Light) {
    0 <= l.daylight <= 65535 && 0 <= l.infrared <= 65535 && Within(l.index, SignedByte)
  }

  predicate ForceInRange(f: Force) {
    0 <= f.value <= 255 && Within(f.index, SignedByte)
  }

  predicate TemperatureInRange(t: Temperature) {
    -20 <= t.value <= 107 && Within(t.index, SignedByte)
  }

  predicate SampleInRange(s: Sample) {
    && Within(s.timeStamp, StampInRange) && Within(s.accelleration, AccellerationInRange) && Within(s.audio, AudioInRange)
    && Within(s.light, LightInRange) && Within(s.force, ForceInRange) && Within(s.temperature, TemperatureInRange)
  }

  predicate RatesInRange(r: Rates) {
    && Within(r.acceleration, SignedByte) && Within(r.audio, SignedByte) && Within(r.light, SignedByte)
    && Within(r.ambientLight, SignedByte) && Within(r.force, SignedByte) && Within(r.temperature, SignedByte)
  }

  predicate StatusInRange(s: Status) {
    && RatesInRange(s.sensorConfig) && RatesInRange(s.allSensorConfig) && 0 <= s.batteryVoltage <= 65535
    && StampInRange(s.currentTime) && StampInRange(s.upTime)
  }

  predicate ControlInRange(c: Control) {
    Within(c.sensorConfig, RatesInRange) && Within(c.newTime, StampInRange)
  }

  // ---------------------------------------------------------------- bits

  /** 0 for an absent element; 1, its code and 0 for a present one. */
  function Marked<T>(o: Option<T>, bits: T -> seq<bool>): seq<bool> {
    if o.None? then [false] else [true] + bits(o.value) + [false]
  }

  function StampBits(t: Stamp): seq<bool> {
    ToBits(t.sec, 32) + ToBits(t.frac / 16, 12)
  }

  function SignedByteBits(n: int): seq<bool> {
    ToBits(n + 128, 8)
  }

  function ShortBits(n: int): seq<bool> {
    ToBits(n + 32768, 16)
  }

  /** Seven bits, from -20 on. */
  function CentigradeBits(n: int): seq<bool> {
    ToBits(n + 20, 7)
  }

  function AccellerationBits(a: Accelleration): seq<bool> {
    ShortBits(a.x) + ShortBits(a.y) + ShortBits(a.z) + Marked(a.index, SignedByteBits)
  }

  function AudioBits(a: Audio): seq<bool> {
    ToBits(a.volume, 8) + Marked(a.index, SignedByteBits)
  }

  function LightBits(l: Light): seq<bool> {
    ToBits(l.daylight, 16) + ToBits(l.infrared, 16) + Marked(l.index, SignedByteBits)
  }

  function ForceBits(f: Force): seq<bool> {
    ToBits(f.value, 8) + Marked(f.index, SignedByteBits)
  }

  function TemperatureBits(t: Temperature): seq<bool> {
    CentigradeBits(t.value) + Marked(t.index, SignedByteBits)
  }

  function SampleBits(s: Sample): seq<bool> {
    Marked(s.timeStamp, StampBits) + Marked(s.accelleration, AccellerationBits) + Marked(s.audio, AudioBits)
    + Marked(s.light, LightBits) + Marked(s.force, ForceBits) + Marked(s.temperature, TemperatureBits)
  }

  function RatesBits(r: Rates): seq<bool> {
    Marked(r.acceleration, SignedByteBits) + Marked(r.audio, SignedByteBits) + Marked(r.light, SignedByteBits)
    + Marked(r.ambientLight, SignedByteBits) + Marked(r.force, SignedByteBits) + Marked(r.temperature, SignedByteBits)
  }

  function StatusBits(s: Status): seq<bool> {
    RatesBits(s.sensorConfig) + RatesBits(s.allSensorConfig) + ToBits(s.batteryVoltage, 16)
    + StampBits(s.currentTime) + StampBits(s.upTime)
  }

  function ControlBits(c: Control): seq<bool> {
    Marked(c.sensorConfig, RatesBits) + Marked(c.newTime, StampBits)
  }

  // ---------------------------------------------------------------- prints

  function IfPresent<T>(o: Option<T>, text: T -> seq<Event>): seq<Event> {
    if o.None? then [] else text(o.value)
  }

  function Tagged(tag: string, v: Value): seq<Event> {
    [Open(tag), Text(v), Close(tag)]
  }

  function Around(tag: string, text: seq<Event>): seq<Event> {
    [Open(tag)] + text + [Close(tag)]
  }

  function StampText(tag: string, t: Stamp): seq<Event> {
    Tagged(tag, Time(t.sec, t.frac))
  }

  function TimeStampText(t: Stamp): seq<Event> {
    StampText("sens:TimeStamp", t)
  }

  function NewTimeText(t: Stamp): seq<Event> {
    StampText("sens:NewTime", t)
  }

  function IndexText(n: int): seq<Event> {
    Tagged("sens:index", Int(n))
  }

  function AccellerationText(a: Accelleration): seq<Event> {
    Around("sens:Accelleration",
           Tagged("sens:x", Int(a.x)) + Tagged("sens:y", Int(a.y)) + Tagged("sens:z", Int(a.z)) + IfPresent(a.index, IndexText))
  }

  function AudioText(a: Audio): seq<Event> {
    Around("sens:Audio", Tagged("sens:volume", Int(a.volume)) + IfPresent(a.index, IndexText))
  }

  function LightText(l: Light): seq<Event> {
    Around("sens:Light",
           Tagged("sens:daylight", Int(l.daylight)) + Tagged("sens:infrared", Int(l.infrared)) + IfPresent(l.index, IndexText))
  }

  function ForceText(f: Force): seq<Event> {
    Around("sens:Force", Tagged("sens:value", Int(f.value)) + IfPresent(f.index, IndexText))
  }

  function TemperatureText(t: Temperature): seq<Event> {
    Around("sens:Temperature", Tagged("sens:value", Int(t.value)) + IfPresent(t.index, IndexText))
  }

  function SampleText(s: Sample): seq<Event> {
    Around("sens:Sample",
           IfPresent(s.timeStamp, TimeStampText) + IfPresent(s.accelleration, AccellerationText) + IfPresent(s.audio, AudioText)
           + IfPresent(s.light, LightText) + IfPresent(s.force, ForceText) + IfPresent(s.temperature, TemperatureText))
  }

  function RateText(tag: string, n: int): seq<Event> {
    Around(tag, Tagged("sens:rate", Int(n)))
  }

  function AccelerationRateText(n: int): seq<Event> {
    RateText("sens:Acceleration", n)
  }

  function AudioRateText(n: int): seq<Event> {
    RateText("sens:Audio", n)
  }

  function LightRateText(n: int): seq<Event> {
    RateText("sens:Light", n)
  }

  function AmbientLightRateText(n: int): seq<Event> {
    RateText("sens:AmbientLight", n)
  }

  function ForceRateText(n: int): seq<Event> {
    RateText("sens:Force", n)
  }

  function TemperatureRateText(n: int): seq<Event> {
    RateText("sens:Temperature", n)
  }

  function RatesText(tag: string, r: Rates): seq<Event> {
    Around(tag,
           IfPresent(r.acceleration, AccelerationRateText) + IfPresent(r.audio, AudioRateText) + IfPresent(r.light, LightRateText)
           + IfPresent(r.ambientLight, AmbientLightRateText) + IfPresent(r.force, ForceRateText)
           + IfPresent(r.temperature, TemperatureRateText))
  }

  function SensorConfigText(r: Rates): seq<Event> {
    RatesText("sens:SensorConfig", r)
  }

  function StatusText(s: Status): seq<Event> {
    Around("sens:Status",
           RatesText("sens:SensorConfig", s.sensorConfig) + RatesText("sens:AllSensorConfig", s.allSensorConfig)
           + Tagged("sens:BatteryVoltage", Int(s.batteryVoltage))
           + StampText("sens:CurrentTime", s.currentTime) + StampText("sens:UpTime", s.upTime))
  }

  function ControlText(c: Control): seq<Event> {
    Around("sens:StatusControl",
           IfPresent(c.sensorConfig, SensorConfigText) + IfPresent(c.newTime, NewTimeText))
  }

  // ---------------------------------------------------------------- what arrives

  function Mapped<T>(o: Option<T>, f: T -> T): Option<T> {
    if o.None? then None else Some(f(o.value))
  }

  /** A fraction is rounded down to a multiple of 16. */
  function Rounded(t: Stamp): Stamp {
    Stamp(t.sec, t.frac / 16 * 16)
  }

  function RoundedSample(s: Sample): Sample {
    s.(timeStamp := Mapped(s.timeStamp, Rounded))
  }

  function RoundedStatus(s: Status): Status {
    s.(currentTime := Rounded(s.currentTime), upTime := Rounded(s.upTime))
  }

  function RoundedControl(c: Control): Control {
    c.(newTime := Mapped(c.newTime, Rounded))
  }
}
