/** How many bits each message of the sensor node takes. */
module Lengths {
  import opened Wire
  import opened Loss
  import opened Sensors

  // ---------------------------------------------------------------- fields one by one

  /** The bits of an optional element without repetition. */
  function SlotBits(sub: Schema, list: seq<Dom>): nat {
    if list == [] then 1 else 2 + |Encode(sub, list[0])|
  }

  ghost predicate Fits(sub: Schema, list: seq<Dom>) {
    |list| <= 1 && (list != [] ==> Conforms(sub, list[0]) && Small(sub, list[0]))
  }

  ghost predicate FieldsFit(fs: Fields, slots: seq<seq<Dom>>) {
    ConformsFields(fs, slots) && SmallFields(fs, slots)
  }

  lemma FirstOptional(sub: Schema, rest: Fields, slots: seq<seq<Dom>>)
    requires FieldsFit(Field(true, sub, rest), slots)
    ensures slots != [] && Fits(sub, slots[0]) && FieldsFit(rest, slots[1..])
    ensures |EncodeFields(Field(true, sub, rest), slots)| == SlotBits(sub, slots[0]) + |EncodeFields(rest, slots[1..])|
  {
    assert ConformsList(sub, slots[0]) && SmallList(sub, slots[0]);
    SlotLength(true, sub, slots[0]);
  }

  lemma FirstMandatory(sub: Schema, rest: Fields, slots: seq<seq<Dom>>)
    requires FieldsFit(Field(false, sub, rest), slots)
    ensures slots != [] && |slots[0]| == 1 && Fits(sub, slots[0]) && FieldsFit(rest, slots[1..])
    ensures |EncodeFields(Field(false, sub, rest), slots)| == |Encode(sub, slots[0][0])| + |EncodeFields(rest, slots[1..])|
  {
    assert ConformsList(sub, slots[0]) && SmallList(sub, slots[0]);
  }

  /** A structure of six optional elements. */
  lemma SixOptional(s: Schema, a: Schema, b: Schema, c: Schema, d: Schema, e: Schema, f: Schema, dom: Dom)
    requires s.Complex? && Conforms(s, dom) && Small(s, dom)
    requires s.fields == Field(true, a, Field(true, b, Field(true, c, Field(true, d, Field(true, e, Field(true, f, Done))))))
    ensures |dom.slots| == 6
    ensures Fits(a, dom.slots[0]) && Fits(b, dom.slots[1]) && Fits(c, dom.slots[2])
    ensures Fits(d, dom.slots[3]) && Fits(e, dom.slots[4]) && Fits(f, dom.slots[5])
    ensures |Encode(s, dom)| == SlotBits(a, dom.slots[0]) + SlotBits(b, dom.slots[1]) + SlotBits(c, dom.slots[2])
                                + SlotBits(d, dom.slots[3]) + SlotBits(e, dom.slots[4]) + SlotBits(f, dom.slots[5])
  {
    var f6 := Field(true, f, Done);
    var f5 := Field(true, e, f6);
    var f4 := Field(true, d, f5);
    var f3 := Field(true, c, f4);
    var f2 := Field(true, b, f3);
    var l := dom.slots;
    FirstOptional(a, f2, l);
    FirstOptional(b, f3, l[1..]);
    assert l[1..][1..] == l[2..];
    FirstOptional(c, f4, l[2..]);
    assert l[2..][1..] == l[3..];
    FirstOptional(d, f5, l[3..]);
    assert l[3..][1..] == l[4..];
    FirstOptional(e, f6, l[4..]);
    assert l[4..][1..] == l[5..];
    FirstOptional(f, Done, l[5..]);
    assert l[5..][1..] == l[6..];
  }

  // ---------------------------------------------------------------- the parts

  /** How many values the bounded list in field k of the one structure in `list` holds: 0 or 1. */
  function Inner(list: seq<Dom>, k: nat): nat {
    if list != [] && list[0].Struct? && k < |list[0].slots| then |list[0].slots[k]| else 0
  }

  lemma SimpleLength(tag: string, leaf: Leaf, list: seq<Dom>)
    requires Fits(Simple(tag, leaf), list)
    ensures SlotBits(Simple(tag, leaf), list) == 1 + (1 + LeafWidth(leaf)) * |list|
  {
    if list != [] {
      LeafWidthOfCode(leaf, list[0].v);
    }
  }

  lemma IndexLength(slots: seq<seq<Dom>>)
    requires FieldsFit(Index(), slots)
    ensures |slots| == 1 && |EncodeFields(Index(), slots)| == 1 + 9 * |slots[0]|
  {
    FirstOptional(Simple("sens:index", BYTE), Done, slots);
    SimpleLength("sens:index", BYTE, slots[0]);
  }

  /** A structure of one number and an index. */
  lemma OneLength(tag: string, name: string, leaf: Leaf, list: seq<Dom>)
    requires Fits(Complex(tag, Field(false, Simple(name, leaf), Index())), list)
    ensures SlotBits(Complex(tag, Field(false, Simple(name, leaf), Index())), list)
            == 1 + (2 + LeafWidth(leaf)) * |list| + 9 * Inner(list, 1)
  {
    if list != [] {
      var l := list[0].slots;
      FirstMandatory(Simple(name, leaf), Index(), l);
      LeafWidthOfCode(leaf, l[0][0].v);
      IndexLength(l[1..]);
    }
  }

  lemma LightLength(list: seq<Dom>)
    requires Fits(Light(), list)
    ensures SlotBits(Light(), list) == 1 + 34 * |list| + 9 * Inner(list, 2)
  {
    if list != [] {
      var l := list[0].slots;
      var f2 := Field(false, Simple("sens:infrared", UNSIGNED_SHORT), Index());
      FirstMandatory(Simple("sens:daylight", UNSIGNED_SHORT), f2, l);
      FirstMandatory(Simple("sens:infrared", UNSIGNED_SHORT), Index(), l[1..]);
      assert l[1..][1..] == l[2..];
      IndexLength(l[2..]);
    }
  }

  lemma AccellerationLength(list: seq<Dom>)
    requires Fits(Accelleration(), list)
    ensures SlotBits(Accelleration(), list) == 1 + 50 * |list| + 9 * Inner(list, 3)
  {
    if list != [] {
      var l := list[0].slots;
      var f3 := Field(false, Simple("sens:z", SHORT), Index());
      var f2 := Field(false, Simple("sens:y", SHORT), f3);
      FirstMandatory(Simple("sens:x", SHORT), f2, l);
      FirstMandatory(Simple("sens:y", SHORT), f3, l[1..]);
      assert l[1..][1..] == l[2..];
      FirstMandatory(Simple("sens:z", SHORT), Index(), l[2..]);
      assert l[2..][1..] == l[3..];
      IndexLength(l[3..]);
    }
  }

  // ---------------------------------------------------------------- the messages

  /** Time stamp, acceleration, audio, light, force, temperature; and an index in each but the first. */
  function SampleBits(l: seq<seq<Dom>>): nat
    requires |l| == 6
  {
    6 + 45 * |l[0]| + 50 * |l[1]| + 10 * |l[2]| + 34 * |l[3]| + 10 * |l[4]| + 9 * |l[5]|
    + 9 * (Inner(l[1], 3) + Inner(l[2], 1) + Inner(l[3], 2) + Inner(l[4], 1) + Inner(l[5], 1))
  }

  lemma SampleLength(d: Dom)
    requires Conforms(Sample(), d) && Small(Sample(), d)
    ensures |d.slots| == 6 && |Encode(Sample(), d)| == SampleBits(d.slots)
  {
    SixOptional(Sample(), Simple("sens:TimeStamp", TIME), Accelleration(), Audio(), Light(), Force(), Temperature(), d);
    SimpleLength("sens:TimeStamp", TIME, d.slots[0]);
    AccellerationLength(d.slots[1]);
    OneLength("sens:Audio", "sens:volume", UNSIGNED_BYTE, d.slots[2]);
    LightLength(d.slots[3]);
    OneLength("sens:Force", "sens:value", UNSIGNED_BYTE, d.slots[4]);
    OneLength("sens:Temperature", "sens:value", TEMPERATURE, d.slots[5]);
  }

  /** How many of the six sensors have a rate. */
  function Rates(c: Dom): nat {
    if c.Struct? && |c.slots| == 6
    then |c.slots[0]| + |c.slots[1]| + |c.slots[2]| + |c.slots[3]| + |c.slots[4]| + |c.slots[5]|
    else 0
  }

  lemma RateLength(tag: string, list: seq<Dom>)
    requires Fits(RateConfig(tag), list)
    ensures SlotBits(RateConfig(tag), list) == 1 + 9 * |list|
  {
    if list != [] {
      var l := list[0].slots;
      FirstMandatory(Simple("sens:rate", BYTE), Done, l);
      LeafWidthOfCode(BYTE, l[0][0].v);
    }
  }

  lemma ConfigLength(tag: string, c: Dom)
    requires Conforms(SensorConfig(tag), c) && Small(SensorConfig(tag), c)
    ensures Rates(c) <= 6 && |Encode(SensorConfig(tag), c)| == 6 + 9 * Rates(c)
  {
    SixOptional(SensorConfig(tag), RateConfig("sens:Acceleration"), RateConfig("sens:Audio"), RateConfig("sens:Light"),
                RateConfig("sens:AmbientLight"), RateConfig("sens:Force"), RateConfig("sens:Temperature"), c);
    RateLength("sens:Acceleration", c.slots[0]);
    RateLength("sens:Audio", c.slots[1]);
    RateLength("sens:Light", c.slots[2]);
    RateLength("sens:AmbientLight", c.slots[3]);
    RateLength("sens:Force", c.slots[4]);
    RateLength("sens:Temperature", c.slots[5]);
  }

  /** Two configurations, then voltage and two times. */
  lemma StatusLength(d: Dom)
    requires Conforms(Status(), d) && Small(Status(), d)
    ensures |d.slots| == 5 && |d.slots[0]| == 1 && |d.slots[1]| == 1
    ensures Rates(d.slots[0][0]) <= 6 && Rates(d.slots[1][0]) <= 6
    ensures |Encode(Status(), d)| == 116 + 9 * (Rates(d.slots[0][0]) + Rates(d.slots[1][0]))
  {
    var l := d.slots;
    var a, b := SensorConfig("sens:SensorConfig"), SensorConfig("sens:AllSensorConfig");
    FirstMandatory(a, Field(false, b, VoltageAndTimes()), l);
    FirstMandatory(b, VoltageAndTimes(), l[1..]);
    ConfigLength("sens:SensorConfig", l[0][0]);
    ConfigLength("sens:AllSensorConfig", l[1][0]);
    assert l[1..][1..] == l[2..];
    VoltageAndTimesLength(l[2..]);
  }

  lemma VoltageAndTimesLength(l: seq<seq<Dom>>)
    requires FieldsFit(VoltageAndTimes(), l)
    ensures |l| == 3 && |EncodeFields(VoltageAndTimes(), l)| == 104
  {
    var f3 := Field(false, Simple("sens:UpTime", TIME), Done);
    var f2 := Field(false, Simple("sens:CurrentTime", TIME), f3);
    FirstMandatory(Simple("sens:BatteryVoltage", UNSIGNED_SHORT), f2, l);
    FirstMandatory(Simple("sens:CurrentTime", TIME), f3, l[1..]);
    assert l[1..][1..] == l[2..];
    FirstMandatory(Simple("sens:UpTime", TIME), Done, l[2..]);
    assert l[2..][1..] == l[3..];
    LeafWidthOfCode(UNSIGNED_SHORT, l[0][0].v);
    LeafWidthOfCode(TIME, l[1][0].v);
    LeafWidthOfCode(TIME, l[2][0].v);
  }

  /** A configuration and a new time, each if present. */
  lemma StatusControlLength(d: Dom)
    requires Conforms(StatusControl(), d) && Small(StatusControl(), d)
    ensures |d.slots| == 2 && |d.slots[0]| <= 1 && |d.slots[1]| <= 1
    ensures d.slots[0] != [] ==> Rates(d.slots[0][0]) <= 6
    ensures |Encode(StatusControl(), d)|
            == 2 + 45 * |d.slots[1]| + if d.slots[0] == [] then 0 else 7 + 9 * Rates(d.slots[0][0])
  {
    var l := d.slots;
    var a, b := SensorConfig("sens:SensorConfig"), Simple("sens:NewTime", TIME);
    FirstOptional(a, Field(true, b, Done), l);
    FirstOptional(b, Done, l[1..]);
    SimpleLength("sens:NewTime", TIME, l[1]);
    if l[0] != [] {
      ConfigLength("sens:SensorConfig", l[0][0]);
    }
  }

  // ---------------------------------------------------------------- least and greatest

  function Bytes(bits: nat): nat {
    (bits + 7) / 8
  }

  /** The node's write buffer holds 64 bytes, and the length field is of 8 bits. */
  predicate FitsMessage(bits: seq<bool>) {
    |bits| <= 8 * 64 && Bytes(|bits|) <= 64 && Bytes(|bits|) <= 255
  }

  /** d is no shorter than `least` and no longer than `greatest`; both occur, and every message fits. */
  predicate HasLengths(s: Schema, d: Dom, least: nat, greatest: nat) {
    && Within(s, d, least, greatest)
    && (Conforms(s, d) && Small(s, d) ==> FitsMessage(Encode(s, d)))
    && Occurs(s, Extreme(s, false), least) && Occurs(s, Extreme(s, true), greatest)
  }

  predicate Within(s: Schema, d: Dom, least: nat, greatest: nat) {
    Conforms(s, d) && Small(s, d) ==> least <= |Encode(s, d)| <= greatest
  }

  predicate Occurs(s: Schema, d: Dom, length: nat) {
    Conforms(s, d) && Small(s, d) && |Encode(s, d)| == length
  }

  /** From the formula of its messages to the lengths of a schema. */
  lemma LengthsOf(s: Schema, d: Dom, least: nat, greatest: nat)
    requires Bound(s, false) == least && Bound(s, true) == greatest <= 512
    requires Within(s, d, least, greatest)
    ensures HasLengths(s, d, least, greatest)
  {
    ExtremeLength(s, false);
    ExtremeLength(s, true);
  }

  lemma SampleWithin(d: Dom)
    ensures Within(Sample(), d, 6, 209)
  {
    if Conforms(Sample(), d) && Small(Sample(), d) {
      SampleLength(d);
      SixOptional(Sample(), Simple("sens:TimeStamp", TIME), Accelleration(), Audio(), Light(), Force(), Temperature(), d);
      InnerFits(Accelleration(), d.slots[1], 3);
      InnerFits(Audio(), d.slots[2], 1);
      InnerFits(Light(), d.slots[3], 2);
      InnerFits(Force(), d.slots[4], 1);
      InnerFits(Temperature(), d.slots[5], 1);
    }
  }

  lemma StatusWithin(d: Dom)
    ensures Within(Status(), d, 116, 224)
  {
    if Conforms(Status(), d) && Small(Status(), d) {
      StatusLength(d);
    }
  }

  lemma StatusControlWithin(d: Dom)
    ensures Within(StatusControl(), d, 2, 108)
  {
    if Conforms(StatusControl(), d) && Small(StatusControl(), d) {
      StatusControlLength(d);
    }
  }

  lemma InnerFits(sub: Schema, list: seq<Dom>, k: nat)
    requires Fits(sub, list) && sub.Complex?
    ensures Inner(list, k) <= |list|
  {
    if Inner(list, k) > 0 {
      SlotFits(sub.fields, list[0].slots, k);
    }
  }

  lemma {:induction false} SlotFits(fs: Fields, slots: seq<seq<Dom>>, k: nat)
    requires FieldsFit(fs, slots) && k < |slots|
    ensures |slots[k]| <= 1
    decreases fs
  {
    if k > 0 {
      SlotFits(fs.rest, slots[1..], k - 1);
    }
  }

  lemma SampleLengths(d: Dom)
    ensures HasLengths(Sample(), d, 6, 209)
  {
    SampleWithin(d);
    SampleBounds();
    LengthsOf(Sample(), d, 6, 209);
  }

  lemma StatusLengths(d: Dom)
    ensures HasLengths(Status(), d, 116, 224)
  {
    StatusWithin(d);
    StatusBounds();
    LengthsOf(Status(), d, 116, 224);
  }

  lemma StatusControlLengths(d: Dom)
    ensures HasLengths(StatusControl(), d, 2, 108)
  {
    StatusControlWithin(d);
    StatusControlBounds();
    LengthsOf(StatusControl(), d, 2, 108);
  }

  /** Every message of the sensor node has a fixed least and greatest length, both occur, and every message fits
      the node's buffer and the length field of the header. */
  lemma MessageLengths(d: Dom)
    ensures HasLengths(Sample(), d, 6, 209)
    ensures HasLengths(Status(), d, 116, 224)
    ensures HasLengths(StatusControl(), d, 2, 108)
  {
    SampleLengths(d);
    StatusLengths(d);
    StatusControlLengths(d);
  }

  lemma SampleBounds()
    ensures Bound(Sample(), false) == 6 && Bound(Sample(), true) == 209
  {
    assert Bound(Accelleration(), true) == 58 && Bound(Audio(), true) == 18 && Bound(Light(), true) == 42;
    assert Bound(Force(), true) == 18 && Bound(Temperature(), true) == 17;
  }

  lemma StatusBounds()
    ensures Bound(Status(), false) == 116 && Bound(Status(), true) == 224
  {
    ConfigBounds("sens:SensorConfig");
    ConfigBounds("sens:AllSensorConfig");
    TwoAndTailBound("sens:Status", SensorConfig("sens:SensorConfig"), SensorConfig("sens:AllSensorConfig"),
                    VoltageAndTimes());
    assert BoundFields(VoltageAndTimes(), false) == 104 == BoundFields(VoltageAndTimes(), true);
  }

  lemma TwoAndTailBound(tag: string, a: Schema, b: Schema, tail: Fields)
    ensures forall most :: Bound(Complex(tag, Field(false, a, Field(false, b, tail))), most)
                           == Bound(a, most) + (Bound(b, most) + BoundFields(tail, most))
  {
    forall most
      ensures BoundFields(Field(false, b, tail), most) == Bound(b, most) + BoundFields(tail, most)
    {
    }
  }

  lemma StatusControlBounds()
    ensures Bound(StatusControl(), false) == 2 && Bound(StatusControl(), true) == 108
  {
    ConfigBounds("sens:SensorConfig");
  }

  lemma ConfigBounds(tag: string)
    ensures Bound(SensorConfig(tag), false) == 6 && Bound(SensorConfig(tag), true) == 60
  {
    RateBounds("sens:Acceleration");
    RateBounds("sens:Audio");
    RateBounds("sens:Light");
    RateBounds("sens:AmbientLight");
    RateBounds("sens:Force");
    RateBounds("sens:Temperature");
  }

  lemma RateBounds(tag: string)
    ensures Bound(RateConfig(tag), false) == 8 == Bound(RateConfig(tag), true)
  {
  }
}
