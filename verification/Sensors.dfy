/** The three message types of the sensor values service: their schemas and the label tables of the
    generated automata, state by state. */
module Sensors {
  import opened Wire
  import opened Automata

  const SHORT := IntLeaf(true, 16, -32768, 16)
  const UNSIGNED_SHORT := IntLeaf(false, 16, 0, 16)
  const BYTE := IntLeaf(true, 8, -128, 8)
  const UNSIGNED_BYTE := IntLeaf(false, 8, 0, 8)
  const TEMPERATURE := IntLeaf(true, 8, -20, 7)
  const TIME := TimeLeaf(32, 16, 12)

  // ---------------------------------------------------------------- schemas

  function Index(): Fields {
    Field(true, Simple("sens:index", BYTE), Done)
  }

  function Accelleration(): Schema {
    Complex("sens:Accelleration",
            Field(false, Simple("sens:x", SHORT),
            Field(false, Simple("sens:y", SHORT),
            Field(false, Simple("sens:z", SHORT), Index()))))
  }

  function Audio(): Schema {
    Complex("sens:Audio", Field(false, Simple("sens:volume", UNSIGNED_BYTE), Index()))
  }

  function Light(): Schema {
    Complex("sens:Light",
            Field(false, Simple("sens:daylight", UNSIGNED_SHORT),
            Field(false, Simple("sens:infrared", UNSIGNED_SHORT), Index())))
  }

  function Force(): Schema {
    Complex("sens:Force", Field(false, Simple("sens:value", UNSIGNED_BYTE), Index()))
  }

  function Temperature(): Schema {
    Complex("sens:Temperature", Field(false, Simple("sens:value", TEMPERATURE), Index()))
  }

  function Sample(): Schema {
    Complex("sens:Sample",
            Field(true, Simple("sens:TimeStamp", TIME),
            Field(true, Accelleration(),
            Field(true, Audio(),
            Field(true, Light(),
            Field(true, Force(),
            Field(true, Temperature(), Done)))))))
  }

  function RateConfig(tag: string): Schema {
    Complex(tag, Field(false, Simple("sens:rate", BYTE), Done))
  }

  function SensorConfig(tag: string): Schema {
    Complex(tag,
            Field(true, RateConfig("sens:Acceleration"),
            Field(true, RateConfig("sens:Audio"),
            Field(true, RateConfig("sens:Light"),
            Field(true, RateConfig("sens:AmbientLight"),
            Field(true, RateConfig("sens:Force"),
            Field(true, RateConfig("sens:Temperature"), Done)))))))
  }

  function Status(): Schema {
    Complex("sens:Status",
            Field(false, SensorConfig("sens:SensorConfig"),
            Field(false, SensorConfig("sens:AllSensorConfig"), VoltageAndTimes())))
  }

  function VoltageAndTimes(): Fields {
    Field(false, Simple("sens:BatteryVoltage", UNSIGNED_SHORT),
    Field(false, Simple("sens:CurrentTime", TIME),
    Field(false, Simple("sens:UpTime", TIME), Done)))
  }

  function StatusControl(): Schema {
    Complex("sens:StatusControl",
            Field(true, SensorConfig("sens:SensorConfig"),
            Field(true, Simple("sens:NewTime", TIME), Done)))
  }

  // ---------------------------------------------------------------- label tables

  function SampleState(lbl: nat): State {
    match lbl
    case 0 => Root("sens:Sample")
    case 1 => State.Leaf("sens:TimeStamp", true, 0, TIME)
    case 2 => Begin("sens:Accelleration", true, 1, 8, Accelleration())
    case 3 => State.Leaf("sens:x", false, 0, SHORT)
    case 4 => State.Leaf("sens:y", false, 1, SHORT)
    case 5 => State.Leaf("sens:z", false, 2, SHORT)
    case 6 => State.Leaf("sens:index", true, 3, BYTE)
    case 7 => End("sens:Accelleration", true, 2)
    case 8 => Begin("sens:Audio", true, 2, 12, Audio())
    case 9 => State.Leaf("sens:volume", false, 0, UNSIGNED_BYTE)
    case 10 => State.Leaf("sens:index", true, 1, BYTE)
    case 11 => End("sens:Audio", true, 8)
    case 12 => Begin("sens:Light", true, 3, 17, Light())
    case 13 => State.Leaf("sens:daylight", false, 0, UNSIGNED_SHORT)
    case 14 => State.Leaf("sens:infrared", false, 1, UNSIGNED_SHORT)
    case 15 => State.Leaf("sens:index", true, 2, BYTE)
    case 16 => End("sens:Light", true, 12)
    case 17 => Begin("sens:Force", true, 4, 21, Force())
    case 18 => State.Leaf("sens:value", false, 0, UNSIGNED_BYTE)
    case 19 => State.Leaf("sens:index", true, 1, BYTE)
    case 20 => End("sens:Force", true, 17)
    case 21 => Begin("sens:Temperature", true, 5, 25, Temperature())
    case 22 => State.Leaf("sens:value", false, 0, TEMPERATURE)
    case 23 => State.Leaf("sens:index", true, 1, BYTE)
    case 24 => End("sens:Temperature", true, 21)
    case _ => End("sens:Sample", false, 0)
  }

  const SAMPLE_TABLE: seq<State> := seq(26, (lbl: nat) => SampleState(lbl))

  function StatusState(lbl: nat): State {
    match lbl
    case 0 => Root("sens:Status")
    case 1 => Begin("sens:SensorConfig", false, 0, 21, SensorConfig("sens:SensorConfig"))
    case 2 => Begin("sens:Acceleration", true, 0, 5, RateConfig("sens:Acceleration"))
    case 3 => State.Leaf("sens:rate", false, 0, BYTE)
    case 4 => End("sens:Acceleration", true, 2)
    case 5 => Begin("sens:Audio", true, 1, 8, RateConfig("sens:Audio"))
    case 6 => State.Leaf("sens:rate", false, 0, BYTE)
    case 7 => End("sens:Audio", true, 5)
    case 8 => Begin("sens:Light", true, 2, 11, RateConfig("sens:Light"))
    case 9 => State.Leaf("sens:rate", false, 0, BYTE)
    case 10 => End("sens:Light", true, 8)
    case 11 => Begin("sens:AmbientLight", true, 3, 14, RateConfig("sens:AmbientLight"))
    case 12 => State.Leaf("sens:rate", false, 0, BYTE)
    case 13 => End("sens:AmbientLight", true, 11)
    case 14 => Begin("sens:Force", true, 4, 17, RateConfig("sens:Force"))
    case 15 => State.Leaf("sens:rate", false, 0, BYTE)
    case 16 => End("sens:Force", true, 14)
    case 17 => Begin("sens:Temperature", true, 5, 20, RateConfig("sens:Temperature"))
    case 18 => State.Leaf("sens:rate", false, 0, BYTE)
    case 19 => End("sens:Temperature", true, 17)
    case 20 => End("sens:SensorConfig", false, 1)
    case 21 => Begin("sens:AllSensorConfig", false, 1, 41, SensorConfig("sens:AllSensorConfig"))
    case _ => StatusStateFrom22(lbl)
  }

  function StatusStateFrom22(lbl: nat): State {
    match lbl
    case 22 => Begin("sens:Acceleration", true, 0, 25, RateConfig("sens:Acceleration"))
    case 23 => State.Leaf("sens:rate", false, 0, BYTE)
    case 24 => End("sens:Acceleration", true, 22)
    case 25 => Begin("sens:Audio", true, 1, 28, RateConfig("sens:Audio"))
    case 26 => State.Leaf("sens:rate", false, 0, BYTE)
    case 27 => End("sens:Audio", true, 25)
    case 28 => Begin("sens:Light", true, 2, 31, RateConfig("sens:Light"))
    case 29 => State.Leaf("sens:rate", false, 0, BYTE)
    case 30 => End("sens:Light", true, 28)
    case 31 => Begin("sens:AmbientLight", true, 3, 34, RateConfig("sens:AmbientLight"))
    case 32 => State.Leaf("sens:rate", false, 0, BYTE)
    case 33 => End("sens:AmbientLight", true, 31)
    case 34 => Begin("sens:Force", true, 4, 37, RateConfig("sens:Force"))
    case 35 => State.Leaf("sens:rate", false, 0, BYTE)
    case 36 => End("sens:Force", true, 34)
    case 37 => Begin("sens:Temperature", true, 5, 40, RateConfig("sens:Temperature"))
    case 38 => State.Leaf("sens:rate", false, 0, BYTE)
    case 39 => End("sens:Temperature", true, 37)
    case 40 => End("sens:AllSensorConfig", false, 21)
    case 41 => State.Leaf("sens:BatteryVoltage", false, 2, UNSIGNED_SHORT)
    case 42 => State.Leaf("sens:CurrentTime", false, 3, TIME)
    case 43 => State.Leaf("sens:UpTime", false, 4, TIME)
    case _ => End("sens:Status", false, 0)
  }

  const STATUS_TABLE: seq<State> := seq(45, (lbl: nat) => StatusState(lbl))

  function StatusControlState(lbl: nat): State {
    match lbl
    case 0 => Root("sens:StatusControl")
    case 1 => Begin("sens:SensorConfig", true, 0, 21, SensorConfig("sens:SensorConfig"))
    case 2 => Begin("sens:Acceleration", true, 0, 5, RateConfig("sens:Acceleration"))
    case 3 => State.Leaf("sens:rate", false, 0, BYTE)
    case 4 => End("sens:Acceleration", true, 2)
    case 5 => Begin("sens:Audio", true, 1, 8, RateConfig("sens:Audio"))
    case 6 => State.Leaf("sens:rate", false, 0, BYTE)
    case 7 => End("sens:Audio", true, 5)
    case 8 => Begin("sens:Light", true, 2, 11, RateConfig("sens:Light"))
    case 9 => State.Leaf("sens:rate", false, 0, BYTE)
    case 10 => End("sens:Light", true, 8)
    case 11 => Begin("sens:AmbientLight", true, 3, 14, RateConfig("sens:AmbientLight"))
    case 12 => State.Leaf("sens:rate", false, 0, BYTE)
    case 13 => End("sens:AmbientLight", true, 11)
    case 14 => Begin("sens:Force", true, 4, 17, RateConfig("sens:Force"))
    case 15 => State.Leaf("sens:rate", false, 0, BYTE)
    case 16 => End("sens:Force", true, 14)
    case 17 => Begin("sens:Temperature", true, 5, 20, RateConfig("sens:Temperature"))
    case 18 => State.Leaf("sens:rate", false, 0, BYTE)
    case 19 => End("sens:Temperature", true, 17)
    case 20 => End("sens:SensorConfig", true, 1)
    case 21 => State.Leaf("sens:NewTime", true, 1, TIME)
    case _ => End("sens:StatusControl", false, 0)
  }

  const STATUS_CONTROL_TABLE: seq<State> := seq(23, (lbl: nat) => StatusControlState(lbl))

  // ---------------------------------------------------------------- the tables are the layouts

  lemma AccellerationLaid()
    ensures LaidElement(SAMPLE_TABLE, true, Accelleration(), 1, 2) && Size(Accelleration()) == 6
  {
    var t := SAMPLE_TABLE;
    assert LaidFields(t, Index(), 3, 6) && SizeFields(Index()) == 1;
    var f3 := Chain(t, false, Simple("sens:z", SHORT), Index(), 2, 5, 1, 1);
    var f2 := Chain(t, false, Simple("sens:y", SHORT), f3, 1, 4, 1, 2);
    var f1 := Chain(t, false, Simple("sens:x", SHORT), f2, 0, 3, 1, 3);
  }

  lemma AudioLaid()
    ensures LaidElement(SAMPLE_TABLE, true, Audio(), 2, 8) && Size(Audio()) == 4
  {
    assert LaidFields(SAMPLE_TABLE, Index(), 1, 10);
  }

  lemma LightLaid()
    ensures LaidElement(SAMPLE_TABLE, true, Light(), 3, 12) && Size(Light()) == 5
  {
    assert LaidFields(SAMPLE_TABLE, Index(), 2, 15);
  }

  lemma ForceLaid()
    ensures LaidElement(SAMPLE_TABLE, true, Force(), 4, 17) && Size(Force()) == 4
  {
    assert LaidFields(SAMPLE_TABLE, Index(), 1, 19);
  }

  lemma TemperatureLaid()
    ensures LaidElement(SAMPLE_TABLE, true, Temperature(), 5, 21) && Size(Temperature()) == 4
  {
    assert LaidFields(SAMPLE_TABLE, Index(), 1, 23);
  }

  /** One more field in front of fields that are laid out. */
  lemma Chain(t: seq<State>, opt: bool, sub: Schema, rest: Fields, k: nat, b: nat, n: nat, m: nat) returns (fs: Fields)
    requires LaidElement(t, opt, sub, k, b) && Size(sub) == n
    requires LaidFields(t, rest, k + 1, b + n) && SizeFields(rest) == m
    ensures fs == Field(opt, sub, rest) && LaidFields(t, fs, k, b) && SizeFields(fs) == n + m
  {
    fs := Field(opt, sub, rest);
  }

  lemma Whole(t: seq<State>, tag: string, fs: Fields, n: nat)
    requires LaidFields(t, fs, 0, 1) && SizeFields(fs) == n
    requires |t| == n + 2 && t[0] == Root(tag) && t[n + 1] == End(tag, false, 0)
    ensures Laid(t, Complex(tag, fs))
  {
  }

  lemma SampleLaid()
    ensures Laid(SAMPLE_TABLE, Sample())
  {
    SampleEnds();
    AccellerationLaid();
    AudioLaid();
    LightLaid();
    ForceLaid();
    TemperatureLaid();
    var tail := SampleChainEnd(SAMPLE_TABLE, Light(), Force(), Temperature());
    tail := SampleChainMiddle(SAMPLE_TABLE, Accelleration(), Audio(), tail);
    SampleChain(SAMPLE_TABLE, Simple("sens:TimeStamp", TIME), tail);
  }

  /** Light, force and temperature. */
  lemma SampleChainEnd(t: seq<State>, d: Schema, e: Schema, f: Schema) returns (fs: Fields)
    requires LaidElement(t, true, d, 3, 12) && Size(d) == 5
    requires LaidElement(t, true, e, 4, 17) && Size(e) == 4
    requires LaidElement(t, true, f, 5, 21) && Size(f) == 4
    ensures fs == Field(true, d, Field(true, e, Field(true, f, Done))) && LaidFields(t, fs, 3, 12) && SizeFields(fs) == 13
  {
    fs := Chain(t, true, f, Done, 5, 21, 4, 0);
    fs := Chain(t, true, e, fs, 4, 17, 4, 4);
    fs := Chain(t, true, d, fs, 3, 12, 5, 8);
  }

  /** Acceleration, audio and what follows. */
  lemma SampleChainMiddle(t: seq<State>, b: Schema, c: Schema, tail: Fields) returns (fs: Fields)
    requires LaidElement(t, true, b, 1, 2) && Size(b) == 6
    requires LaidElement(t, true, c, 2, 8) && Size(c) == 4
    requires LaidFields(t, tail, 3, 12) && SizeFields(tail) == 13
    ensures fs == Field(true, b, Field(true, c, tail)) && LaidFields(t, fs, 1, 2) && SizeFields(fs) == 23
  {
    fs := Chain(t, true, c, tail, 2, 8, 4, 13);
    fs := Chain(t, true, b, fs, 1, 2, 6, 17);
  }

  /** Time stamp and what follows. */
  lemma SampleChain(t: seq<State>, a: Schema, tail: Fields)
    requires |t| == 26 && t[0] == Root("sens:Sample") && t[25] == End("sens:Sample", false, 0)
    requires LaidElement(t, true, a, 0, 1) && Size(a) == 1
    requires LaidFields(t, tail, 1, 2) && SizeFields(tail) == 23
    ensures Laid(t, Complex("sens:Sample", Field(true, a, tail)))
  {
    var fs := Chain(t, true, a, tail, 0, 1, 1, 23);
    Whole(t, "sens:Sample", fs, 24);
  }

  lemma SampleEnds()
    ensures |SAMPLE_TABLE| == 26 && SAMPLE_TABLE[0] == Root("sens:Sample")
    ensures LaidElement(SAMPLE_TABLE, true, Simple("sens:TimeStamp", TIME), 0, 1)
    ensures SAMPLE_TABLE[25] == End("sens:Sample", false, 0)
  {
  }

  /** The three states of one sensor's rate. */
  predicate RateAt(t: seq<State>, tag: string, k: nat, b: nat) {
    && b + 3 <= |t|
    && t[b] == Begin(tag, true, k, b + 3, RateConfig(tag))
    && t[b + 1] == State.Leaf("sens:rate", false, 0, BYTE)
    && t[b + 2] == End(tag, true, b)
  }

  lemma RateLaid(t: seq<State>, tag: string, k: nat, b: nat)
    requires RateAt(t, tag, k, b)
    ensures LaidElement(t, true, RateConfig(tag), k, b) && Size(RateConfig(tag)) == 3
  {
  }

  /** The twenty states of a sensor configuration. */
  predicate ConfigAt(t: seq<State>, opt: bool, tag: string, k: nat, b: nat) {
    && b + 20 <= |t|
    && t[b] == Begin(tag, opt, k, b + 20, SensorConfig(tag))
    && RateAt(t, "sens:Acceleration", 0, b + 1)
    && RateAt(t, "sens:Audio", 1, b + 4)
    && RateAt(t, "sens:Light", 2, b + 7)
    && RateAt(t, "sens:AmbientLight", 3, b + 10)
    && RateAt(t, "sens:Force", 4, b + 13)
    && RateAt(t, "sens:Temperature", 5, b + 16)
    && t[b + 19] == End(tag, opt, b)
  }

  lemma ConfigLaid(t: seq<State>, opt: bool, tag: string, k: nat, b: nat)
    requires ConfigAt(t, opt, tag, k, b)
    ensures LaidElement(t, opt, SensorConfig(tag), k, b) && Size(SensorConfig(tag)) == 20
  {
    RateLaid(t, "sens:Acceleration", 0, b + 1);
    RateLaid(t, "sens:Audio", 1, b + 4);
    RateLaid(t, "sens:Light", 2, b + 7);
    RateLaid(t, "sens:AmbientLight", 3, b + 10);
    RateLaid(t, "sens:Force", 4, b + 13);
    RateLaid(t, "sens:Temperature", 5, b + 16);
    var f6 := Chain(t, true, RateConfig("sens:Temperature"), Done, 5, b + 16, 3, 0);
    var f5 := Chain(t, true, RateConfig("sens:Force"), f6, 4, b + 13, 3, 3);
    var f4 := Chain(t, true, RateConfig("sens:AmbientLight"), f5, 3, b + 10, 3, 6);
    var f3 := Chain(t, true, RateConfig("sens:Light"), f4, 2, b + 7, 3, 9);
    var f2 := Chain(t, true, RateConfig("sens:Audio"), f3, 1, b + 4, 3, 12);
    var f1 := Chain(t, true, RateConfig("sens:Acceleration"), f2, 0, b + 1, 3, 15);
  }

  lemma StatusLaid()
    ensures Laid(STATUS_TABLE, Status())
  {
    FirstConfigLaid();
    SecondConfigLaid();
    StatusRestLaid();
    StatusChain(STATUS_TABLE, SensorConfig("sens:SensorConfig"), SensorConfig("sens:AllSensorConfig"), VoltageAndTimes());
  }

  lemma StatusChain(t: seq<State>, config: Schema, all: Schema, tail: Fields)
    requires |t| == 45 && t[0] == Root("sens:Status") && t[44] == End("sens:Status", false, 0)
    requires LaidElement(t, false, config, 0, 1) && Size(config) == 20
    requires LaidElement(t, false, all, 1, 21) && Size(all) == 20
    requires LaidFields(t, tail, 2, 41) && SizeFields(tail) == 3
    ensures Laid(t, Complex("sens:Status", Field(false, config, Field(false, all, tail))))
  {
    var f2 := Chain(t, false, all, tail, 1, 21, 20, 3);
    var f1 := Chain(t, false, config, f2, 0, 1, 20, 23);
    Whole(t, "sens:Status", f1, 43);
  }

  lemma FirstConfigLaid()
    ensures LaidElement(STATUS_TABLE, false, SensorConfig("sens:SensorConfig"), 0, 1)
    ensures Size(SensorConfig("sens:SensorConfig")) == 20
  {
    ConfigLaid(STATUS_TABLE, false, "sens:SensorConfig", 0, 1);
  }

  lemma SecondRates()
    ensures RateAt(STATUS_TABLE, "sens:Acceleration", 0, 22)
    ensures RateAt(STATUS_TABLE, "sens:Audio", 1, 25)
    ensures RateAt(STATUS_TABLE, "sens:Light", 2, 28)
  {
  }

  lemma SecondRatesContinued()
    ensures RateAt(STATUS_TABLE, "sens:AmbientLight", 3, 31)
    ensures RateAt(STATUS_TABLE, "sens:Force", 4, 34)
    ensures RateAt(STATUS_TABLE, "sens:Temperature", 5, 37)
  {
  }

  lemma SecondConfigLaid()
    ensures LaidElement(STATUS_TABLE, false, SensorConfig("sens:AllSensorConfig"), 1, 21)
    ensures Size(SensorConfig("sens:AllSensorConfig")) == 20
  {
    SecondRates();
    SecondRatesContinued();
    SecondConfigEnds();
    SecondConfig(STATUS_TABLE, "sens:AllSensorConfig");
  }

  lemma SecondConfigEnds()
    ensures STATUS_TABLE[21] == Begin("sens:AllSensorConfig", false, 1, 41, SensorConfig("sens:AllSensorConfig"))
    ensures STATUS_TABLE[40] == End("sens:AllSensorConfig", false, 21)
  {
  }

  lemma SecondConfig(t: seq<State>, tag: string)
    requires |t| == 45
    requires t[21] == Begin(tag, false, 1, 41, SensorConfig(tag)) && t[40] == End(tag, false, 21)
    requires RateAt(t, "sens:Acceleration", 0, 22) && RateAt(t, "sens:Audio", 1, 25)
    requires RateAt(t, "sens:Light", 2, 28) && RateAt(t, "sens:AmbientLight", 3, 31)
    requires RateAt(t, "sens:Force", 4, 34) && RateAt(t, "sens:Temperature", 5, 37)
    ensures LaidElement(t, false, SensorConfig(tag), 1, 21) && Size(SensorConfig(tag)) == 20
  {
    ConfigLaid(t, false, tag, 1, 21);
  }

  lemma StatusRestLaid()
    ensures |STATUS_TABLE| == 45 && STATUS_TABLE[0] == Root("sens:Status")
    ensures LaidFields(STATUS_TABLE, VoltageAndTimes(), 2, 41) && SizeFields(VoltageAndTimes()) == 3
    ensures STATUS_TABLE[44] == End("sens:Status", false, 0)
  {
    TailLaid(STATUS_TABLE);
  }

  lemma TailLaid(t: seq<State>)
    requires |t| == 45
    requires t[41] == State.Leaf("sens:BatteryVoltage", false, 2, UNSIGNED_SHORT)
    requires t[42] == State.Leaf("sens:CurrentTime", false, 3, TIME) && t[43] == State.Leaf("sens:UpTime", false, 4, TIME)
    ensures LaidFields(t, VoltageAndTimes(), 2, 41) && SizeFields(VoltageAndTimes()) == 3
  {
    var fs := Chain(t, false, Simple("sens:UpTime", TIME), Done, 4, 43, 1, 0);
    fs := Chain(t, false, Simple("sens:CurrentTime", TIME), fs, 3, 42, 1, 1);
    fs := Chain(t, false, Simple("sens:BatteryVoltage", UNSIGNED_SHORT), fs, 2, 41, 1, 2);
  }

  lemma StatusControlLaid()
    ensures Laid(STATUS_CONTROL_TABLE, StatusControl())
  {
    StatusControlConfigLaid();
    StatusControlRestLaid();
    StatusControlChain(STATUS_CONTROL_TABLE, SensorConfig("sens:SensorConfig"), Simple("sens:NewTime", TIME));
  }

  lemma StatusControlChain(t: seq<State>, config: Schema, time: Schema)
    requires |t| == 23 && t[0] == Root("sens:StatusControl") && t[22] == End("sens:StatusControl", false, 0)
    requires LaidElement(t, true, config, 0, 1) && Size(config) == 20
    requires LaidElement(t, true, time, 1, 21) && Size(time) == 1
    ensures Laid(t, Complex("sens:StatusControl", Field(true, config, Field(true, time, Done))))
  {
    var f2 := Chain(t, true, time, Done, 1, 21, 1, 0);
    var f1 := Chain(t, true, config, f2, 0, 1, 20, 1);
    Whole(t, "sens:StatusControl", f1, 21);
  }

  lemma StatusControlConfigLaid()
    ensures LaidElement(STATUS_CONTROL_TABLE, true, SensorConfig("sens:SensorConfig"), 0, 1)
    ensures Size(SensorConfig("sens:SensorConfig")) == 20
  {
    ConfigLaid(STATUS_CONTROL_TABLE, true, "sens:SensorConfig", 0, 1);
  }

  lemma StatusControlRestLaid()
    ensures |STATUS_CONTROL_TABLE| == 23 && STATUS_CONTROL_TABLE[0] == Root("sens:StatusControl")
    ensures LaidElement(STATUS_CONTROL_TABLE, true, Simple("sens:NewTime", TIME), 1, 21)
    ensures STATUS_CONTROL_TABLE[22] == End("sens:StatusControl", false, 0)
  {
  }
}
