/** The messages from their values to their values: every tree the structures can hold is that of some values, and
    what the automata make of it is said in terms of these. */
module EndToEnd {
  import opened Options
  import opened Bits
  import opened Wire
  import opened Events
  import opened Loss
  import opened Grammar
  import opened Values
  import opened Agreement
  import Lengths
  import Sensors
  import Messages
  import Automata
  import Dom2Bin
  import Bin2Dom
  import Bin2Sax
  import Sax2Bin

  // ---------------------------------------------------------------- every tree has values

  lemma NumbersOnto(tag: string, leaf: Leaf, list: seq<Dom>) returns (o: Option<int>)
    requires leaf.IntLeaf? && Lengths.Fits(Simple(tag, leaf), list)
    ensures list == Listed(o, Number)
  {
    o := if list == [] then None else Some(list[0].v.n);
  }

  lemma StampsOnto(tag: string, list: seq<Dom>) returns (o: Option<Stamp>)
    requires Lengths.Fits(Simple(tag, Sensors.TIME), list)
    ensures list == Listed(o, StampTree)
  {
    o := if list == [] then None else Some(Stamp(list[0].v.sec, list[0].v.frac));
  }

  /** The number of a mandatory element. */
  lemma NumberOnto(tag: string, leaf: Leaf, list: seq<Dom>) returns (n: int)
    requires leaf.IntLeaf? && Lengths.Fits(Simple(tag, leaf), list) && |list| == 1
    ensures list == [Number(n)]
  {
    n := list[0].v.n;
  }

  lemma IndexOnto(slots: seq<seq<Dom>>) returns (index: Option<int>)
    requires Lengths.FieldsFit(Sensors.Index(), slots)
    ensures slots == [Listed(index, Number)]
  {
    Lengths.FirstOptional(Simple("sens:index", Sensors.BYTE), Done, slots);
    index := NumbersOnto("sens:index", Sensors.BYTE, slots[0]);
    assert slots == [slots[0]] + slots[1..];
  }

  /** The slots of a structure of one number and an index. */
  lemma NumberAndIndexOnto(name: string, leaf: Leaf, slots: seq<seq<Dom>>) returns (n: int, index: Option<int>)
    requires leaf.IntLeaf? && Lengths.FieldsFit(Field(false, Simple(name, leaf), Sensors.Index()), slots)
    ensures slots == [[Number(n)], Listed(index, Number)]
  {
    Lengths.FirstMandatory(Simple(name, leaf), Sensors.Index(), slots);
    n := NumberOnto(name, leaf, slots[0]);
    index := IndexOnto(slots[1..]);
    assert slots == [slots[0]] + slots[1..];
  }

  lemma AccellerationOnto(list: seq<Dom>) returns (o: Option<Accelleration>)
    requires Lengths.Fits(Sensors.Accelleration(), list)
    ensures list == Listed(o, AccellerationTree)
  {
    o := None;
    if list != [] {
      var l := list[0].slots;
      var f3 := Field(false, Simple("sens:z", Sensors.SHORT), Sensors.Index());
      var f2 := Field(false, Simple("sens:y", Sensors.SHORT), f3);
      Lengths.FirstMandatory(Simple("sens:x", Sensors.SHORT), f2, l);
      Lengths.FirstMandatory(Simple("sens:y", Sensors.SHORT), f3, l[1..]);
      var x := NumberOnto("sens:x", Sensors.SHORT, l[0]);
      var y := NumberOnto("sens:y", Sensors.SHORT, l[1]);
      assert l[1..][1..] == l[2..];
      var z, index := NumberAndIndexOnto("sens:z", Sensors.SHORT, l[2..]);
      o := Some(Values.Accelleration(x, y, z, index));
      assert l == [l[0], l[1]] + l[2..] == AccellerationTree(o.value).slots;
      assert list[0] == Struct(l);
    }
  }

  lemma AudioOnto(list: seq<Dom>) returns (o: Option<Audio>)
    requires Lengths.Fits(Sensors.Audio(), list)
    ensures list == Listed(o, AudioTree)
  {
    o := None;
    if list != [] {
      var n, index := NumberAndIndexOnto("sens:volume", Sensors.UNSIGNED_BYTE, list[0].slots);
      o := Some(Values.Audio(n, index));
    }
  }

  lemma LightOnto(list: seq<Dom>) returns (o: Option<Light>)
    requires Lengths.Fits(Sensors.Light(), list)
    ensures list == Listed(o, LightTree)
  {
    o := None;
    if list != [] {
      var l := list[0].slots;
      var f2 := Field(false, Simple("sens:infrared", Sensors.UNSIGNED_SHORT), Sensors.Index());
      Lengths.FirstMandatory(Simple("sens:daylight", Sensors.UNSIGNED_SHORT), f2, l);
      var d := NumberOnto("sens:daylight", Sensors.UNSIGNED_SHORT, l[0]);
      var r, index := NumberAndIndexOnto("sens:infrared", Sensors.UNSIGNED_SHORT, l[1..]);
      o := Some(Values.Light(d, r, index));
      assert l == [l[0]] + l[1..] == LightTree(o.value).slots;
      assert list[0] == Struct(l);
    }
  }

  lemma ForceOnto(list: seq<Dom>) returns (o: Option<Force>)
    requires Lengths.Fits(Sensors.Force(), list)
    ensures list == Listed(o, ForceTree)
  {
    o := None;
    if list != [] {
      var n, index := NumberAndIndexOnto("sens:value", Sensors.UNSIGNED_BYTE, list[0].slots);
      o := Some(Values.Force(n, index));
    }
  }

  lemma TemperatureOnto(list: seq<Dom>) returns (o: Option<Temperature>)
    requires Lengths.Fits(Sensors.Temperature(), list)
    ensures list == Listed(o, TemperatureTree)
  {
    o := None;
    if list != [] {
      var n, index := NumberAndIndexOnto("sens:value", Sensors.TEMPERATURE, list[0].slots);
      o := Some(Values.Temperature(n, index));
    }
  }

  /** Every sample tree without repetition is the tree of some values. */
  lemma SampleOnto(d: Dom) returns (s: Sample)
    requires Conforms(Sensors.Sample(), d) && Small(Sensors.Sample(), d)
    ensures d == SampleTree(s)
  {
    Lengths.SixOptional(Sensors.Sample(), Simple("sens:TimeStamp", Sensors.TIME), Sensors.Accelleration(), Sensors.Audio(),
                        Sensors.Light(), Sensors.Force(), Sensors.Temperature(), d);
    var t := StampsOnto("sens:TimeStamp", d.slots[0]);
    var a := AccellerationOnto(d.slots[1]);
    var u := AudioOnto(d.slots[2]);
    var l := LightOnto(d.slots[3]);
    var f := ForceOnto(d.slots[4]);
    var c := TemperatureOnto(d.slots[5]);
    s := Values.Sample(t, a, u, l, f, c);
    assert d.slots == SampleTree(s).slots;
  }

  lemma RateOnto(tag: string, list: seq<Dom>) returns (o: Option<int>)
    requires Lengths.Fits(Sensors.RateConfig(tag), list)
    ensures list == Listed(o, RateTree)
  {
    o := None;
    if list != [] {
      var l := list[0].slots;
      Lengths.FirstMandatory(Simple("sens:rate", Sensors.BYTE), Done, l);
      var n := NumberOnto("sens:rate", Sensors.BYTE, l[0]);
      o := Some(n);
      assert l == [l[0]] + l[1..] == RateTree(n).slots;
      assert list[0] == Struct(l);
    }
  }

  lemma RatesOnto(tag: string, d: Dom) returns (r: Rates)
    requires Conforms(Sensors.SensorConfig(tag), d) && Small(Sensors.SensorConfig(tag), d)
    ensures d == RatesTree(r)
  {
    Lengths.SixOptional(Sensors.SensorConfig(tag), Sensors.RateConfig("sens:Acceleration"), Sensors.RateConfig("sens:Audio"),
                        Sensors.RateConfig("sens:Light"), Sensors.RateConfig("sens:AmbientLight"),
                        Sensors.RateConfig("sens:Force"), Sensors.RateConfig("sens:Temperature"), d);
    var a := RateOnto("sens:Acceleration", d.slots[0]);
    var u := RateOnto("sens:Audio", d.slots[1]);
    var l := RateOnto("sens:Light", d.slots[2]);
    var m := RateOnto("sens:AmbientLight", d.slots[3]);
    var f := RateOnto("sens:Force", d.slots[4]);
    var c := RateOnto("sens:Temperature", d.slots[5]);
    r := Rates(a, u, l, m, f, c);
    assert d.slots == RatesTree(r).slots;
  }

  /** Two mandatory fields in front of others. */
  lemma TwoMandatory(a: Schema, b: Schema, tail: Fields, l: seq<seq<Dom>>)
    requires Lengths.FieldsFit(Field(false, a, Field(false, b, tail)), l)
    ensures |l| >= 2 && |l[0]| == 1 && |l[1]| == 1 && Lengths.FieldsFit(tail, l[2..])
    ensures Conforms(a, l[0][0]) && Small(a, l[0][0]) && Conforms(b, l[1][0]) && Small(b, l[1][0])
  {
    Lengths.FirstMandatory(a, Field(false, b, tail), l);
    Lengths.FirstMandatory(b, tail, l[1..]);
    assert l[1..][1..] == l[2..];
  }

  lemma StatusOnto(d: Dom) returns (s: Status)
    requires Conforms(Sensors.Status(), d) && Small(Sensors.Status(), d)
    ensures d == StatusTree(s)
  {
    var l := d.slots;
    TwoMandatory(Sensors.SensorConfig("sens:SensorConfig"), Sensors.SensorConfig("sens:AllSensorConfig"), Sensors.VoltageAndTimes(), l);
    s := StatusOf(l);
    assert d == Struct(l);
  }

  lemma StatusOf(l: seq<seq<Dom>>) returns (s: Status)
    requires |l| >= 2 && |l[0]| == 1 && |l[1]| == 1 && Lengths.FieldsFit(Sensors.VoltageAndTimes(), l[2..])
    requires var a := Sensors.SensorConfig("sens:SensorConfig"); Conforms(a, l[0][0]) && Small(a, l[0][0])
    requires var b := Sensors.SensorConfig("sens:AllSensorConfig"); Conforms(b, l[1][0]) && Small(b, l[1][0])
    ensures l == StatusTree(s).slots
  {
    var r := RatesOnto("sens:SensorConfig", l[0][0]);
    var q := RatesOnto("sens:AllSensorConfig", l[1][0]);
    var v, c, u := TailOnto(l[2..]);
    s := Values.Status(r, q, v, c, u);
    assert l == [l[0], l[1]] + l[2..];
    assert l[0] == [RatesTree(r)] && l[1] == [RatesTree(q)];
  }

  lemma TailOnto(l: seq<seq<Dom>>) returns (v: int, c: Stamp, u: Stamp)
    requires Lengths.FieldsFit(Sensors.VoltageAndTimes(), l)
    ensures l == [[Number(v)], [StampTree(c)], [StampTree(u)]]
  {
    var f3 := Field(false, Simple("sens:UpTime", Sensors.TIME), Done);
    var f2 := Field(false, Simple("sens:CurrentTime", Sensors.TIME), f3);
    Lengths.FirstMandatory(Simple("sens:BatteryVoltage", Sensors.UNSIGNED_SHORT), f2, l);
    Lengths.FirstMandatory(Simple("sens:CurrentTime", Sensors.TIME), f3, l[1..]);
    assert l[1..][1..] == l[2..];
    Lengths.FirstMandatory(Simple("sens:UpTime", Sensors.TIME), Done, l[2..]);
    assert l[2..][1..] == l[3..];
    v := NumberOnto("sens:BatteryVoltage", Sensors.UNSIGNED_SHORT, l[0]);
    var o := StampsOnto("sens:CurrentTime", l[1]);
    var p := StampsOnto("sens:UpTime", l[2]);
    c, u := o.value, p.value;
    assert l == [l[0], l[1], l[2]] + l[3..];
  }

  lemma TwoOptional(a: Schema, b: Schema, l: seq<seq<Dom>>)
    requires Lengths.FieldsFit(Field(true, a, Field(true, b, Done)), l)
    ensures |l| == 2 && Lengths.Fits(a, l[0]) && Lengths.Fits(b, l[1])
  {
    Lengths.FirstOptional(a, Field(true, b, Done), l);
    Lengths.FirstOptional(b, Done, l[1..]);
    assert l[1..][1..] == [];
  }

  lemma ControlOnto(d: Dom) returns (c: Control)
    requires Conforms(Sensors.StatusControl(), d) && Small(Sensors.StatusControl(), d)
    ensures d == ControlTree(c)
  {
    var l := d.slots;
    TwoOptional(Sensors.SensorConfig("sens:SensorConfig"), Simple("sens:NewTime", Sensors.TIME), l);
    c := ControlOf(l);
    assert d == Struct(l);
  }

  lemma ControlOf(l: seq<seq<Dom>>) returns (c: Control)
    requires |l| == 2 && Lengths.Fits(Sensors.SensorConfig("sens:SensorConfig"), l[0])
    requires Lengths.Fits(Simple("sens:NewTime", Sensors.TIME), l[1])
    ensures l == ControlTree(c).slots
  {
    var t := StampsOnto("sens:NewTime", l[1]);
    c := Control(None, t);
    if l[0] != [] {
      var r := RatesOnto("sens:SensorConfig", l[0][0]);
      c := Control(Some(r), t);
      assert l[0] == [RatesTree(r)];
    }
    assert l == [l[0], l[1]];
  }

  // ---------------------------------------------------------------- from the node to the gateway

  /** What is written of a tree, what bin2dom rebuilds from it and what bin2sax prints of it, by the facts about it. */
  method Sent(table: seq<Automata.State>, s: Schema, d: Dom, tail: seq<bool>, ghost f: Facts<Dom>)
      returns (bits: seq<bool>, d': Dom, rest: seq<bool>, out: seq<Event>)
    requires Automata.Laid(table, s) && Sound(s) && ElementSays(s, d, f)
    ensures bits == f.bits && rest == tail
    ensures d' == f.norm <==> f.ok
    ensures out == Render(s, d')
  {
    var writer := new BitWriter();
    Dom2Bin.Dom2BinRun(table, s, d, writer);
    bits := writer.bits;
    assert bits == f.bits;
    ParseOfEncode(s, d, tail, true);
    ParseOfEncode(s, d, [], false);
    assert bits + [] == bits;
    var reader := new BitReader(bits + tail);
    var r;
    r, d' := Bin2Dom.Bin2DomRun(table, s, reader);
    rest := reader.rest;
    var reader2 := new BitReader(bits);
    var ok;
    ok, out := Bin2Sax.Bin2SaxRun(table, s, reader2, []);
    assert out == Render(s, d');
  }

  /** A sample: the bits on the wire, and that it comes back as its values, with fractions rounded down, and is
      printed as such, exactly if its numbers are in range. */
  method SampleTrip(s: Sample, tail: seq<bool>) returns (bits: seq<bool>, d: Dom, rest: seq<bool>, out: seq<Event>)
    ensures bits == SampleBits(s) && rest == tail
    ensures d == SampleTree(RoundedSample(s)) <==> SampleInRange(s)
    ensures SampleInRange(s) ==> out == SampleText(RoundedSample(s))
  {
    Sensors.SampleLaid();
    Messages.SampleSound();
    SampleSays(s);
    SampleSays(RoundedSample(s));
    bits, d, rest, out := Sent(Sensors.SAMPLE_TABLE, Sensors.Sample(), SampleTree(s), tail,
                               Facts(SampleInRange(s), SampleBits(s), SampleText(s), SampleTree(RoundedSample(s))));
  }

  method StatusTrip(s: Status, tail: seq<bool>) returns (bits: seq<bool>, d: Dom, rest: seq<bool>, out: seq<Event>)
    ensures bits == StatusBits(s) && rest == tail
    ensures d == StatusTree(RoundedStatus(s)) <==> StatusInRange(s)
    ensures StatusInRange(s) ==> out == StatusText(RoundedStatus(s))
  {
    Sensors.StatusLaid();
    Messages.StatusSound();
    StatusSays(s);
    StatusSays(RoundedStatus(s));
    bits, d, rest, out := Sent(Sensors.STATUS_TABLE, Sensors.Status(), StatusTree(s), tail,
                               Facts(StatusInRange(s), StatusBits(s), StatusText(s), StatusTree(RoundedStatus(s))));
  }

  // ---------------------------------------------------------------- from the gateway to the node

  predicate Timeless(s: Schema) {
    match s
    case Simple(_, leaf) => leaf.IntLeaf?
    case Complex(_, fields) => TimelessFields(fields)
  }

  predicate TimelessFields(fs: Fields) {
    match fs
    case Done => true
    case Field(_, sub, rest) => Timeless(sub) && TimelessFields(rest)
  }

  /** Without times there are no fractions to differ in. */
  lemma {:induction false} TimelessAlike(s: Schema, d: Dom, e: Dom)
    requires Timeless(s) && Alike(UpToFraction, s, d, e)
    ensures d == e
    decreases s, 0
  {
    if s.Complex? {
      TimelessFieldsAlike(s.fields, d.slots, e.slots);
    }
  }

  lemma {:induction false} TimelessFieldsAlike(fs: Fields, a: seq<seq<Dom>>, b: seq<seq<Dom>>)
    requires TimelessFields(fs) && AlikeFields(UpToFraction, fs, a, b)
    ensures a == b
    decreases fs, 0
  {
    if fs.Field? {
      TimelessListAlike(fs.sub, a[0], b[0]);
      TimelessFieldsAlike(fs.rest, a[1..], b[1..]);
      assert a == [a[0]] + a[1..] && b == [b[0]] + b[1..];
    }
  }

  lemma {:induction false} TimelessListAlike(sub: Schema, a: seq<Dom>, b: seq<Dom>)
    requires Timeless(sub) && AlikeList(UpToFraction, sub, a, b)
    ensures a == b
    decreases sub, |a| + 1
  {
    if a != [] {
      TimelessAlike(sub, a[0], b[0]);
      TimelessListAlike(sub, a[1..], b[1..]);
      assert a == [a[0]] + a[1..] && b == [b[0]] + b[1..];
    }
  }

  /** The same control message but for the fraction of its new time. */
  predicate UpToItsFraction(c: Control, e: Control) {
    && e.sensorConfig == c.sensorConfig && e.newTime.Some? == c.newTime.Some?
    && (c.newTime.Some? ==> e.newTime.value.sec == c.newTime.value.sec)
  }

  lemma AlikeOfTwo(a: Schema, b: Schema, l: seq<Dom>, m: seq<Dom>, e: seq<seq<Dom>>)
    requires AlikeFields(UpToFraction, Field(true, a, Field(true, b, Done)), [l, m], e)
    ensures |e| == 2 && AlikeList(UpToFraction, a, l, e[0]) && AlikeList(UpToFraction, b, m, e[1])
  {
    assert [l, m][1..] == [m] && [m][1..] == [];
    assert AlikeFields(UpToFraction, Field(true, b, Done), [m], e[1..]);
    assert AlikeFields(UpToFraction, Done, [], e[1..][1..]);
  }

  lemma ControlAlike(c: Control, e: Dom) returns (got: Control)
    requires Alike(UpToFraction, Sensors.StatusControl(), ControlTree(c), e)
    ensures UpToItsFraction(c, got) && e == ControlTree(got)
  {
    var config, time := Sensors.SensorConfig("sens:SensorConfig"), Simple("sens:NewTime", Sensors.TIME);
    AlikeOfTwo(config, time, Listed(c.sensorConfig, RatesTree), Listed(c.newTime, StampTree), e.slots);
    ConfigTimeless("sens:SensorConfig");
    TimelessListAlike(config, Listed(c.sensorConfig, RatesTree), e.slots[0]);
    got := c;
    if c.newTime.Some? {
      var v := e.slots[1][0].v;
      assert AlikeValues(UpToFraction, Time(c.newTime.value.sec, c.newTime.value.frac), v);
      got := c.(newTime := Some(Stamp(v.sec, v.frac)));
      assert e.slots[1] == [StampTree(got.newTime.value)];
    }
    assert e.slots == [e.slots[0], e.slots[1]];
  }

  lemma ConfigTimeless(tag: string)
    ensures Timeless(Sensors.SensorConfig(tag))
  {
    assert forall t: string :: Timeless(Sensors.RateConfig(t));
  }

  /** The print of a tree, sent on: the bits are those of a tree `e` that differs in fractions only. */
  method Received(table: seq<Automata.State>, s: Schema, tree: Dom, ev: seq<Event>, behind: seq<Event>, clock: Clock)
      returns (accepted: bool, rest: seq<Event>, bits: seq<bool>, d: Dom, ghost e: Dom)
    requires Automata.Laid(table, s) && Sound(s) && Distinct(s) && Conforms(s, tree) && Small(s, tree)
    requires ev == Render(s, tree) + behind
    ensures accepted && rest == behind && Alike(UpToFraction, s, tree, e) && bits == Encode(s, e) && d == Norm(s, e)
  {
    PrintIsAccepted(s, tree, ev, behind, clock);
    e := AcceptDocument(s, ev, clock).v;
    AlikeShape(UpToFraction, s, tree, e);
    var writer := new BitWriter();
    accepted, rest := Sax2Bin.Sax2BinRun(table, s, ev, clock, writer);
    bits := writer.bits;
    assert bits == Encode(s, e) && bits + [] == bits;
    ParseOfEncode(s, e, [], true);
    var reader := new BitReader(bits);
    var r;
    r, d := Bin2Dom.Bin2DomRun(table, s, reader);
  }

  /** A control message: its print is accepted, whatever stands behind it; the bits on the wire are those of `got`,
      the same values with the fraction that the unassigned variable holds; and the node gets these, that fraction
      rounded down, exactly if they are in range. */
  method ControlTrip(c: Control, behind: seq<Event>, clock: Clock)
      returns (accepted: bool, rest: seq<Event>, bits: seq<bool>, d: Dom, ghost got: Control)
    ensures accepted && rest == behind && UpToItsFraction(c, got)
    ensures bits == ControlBits(got)
    ensures d == ControlTree(RoundedControl(got)) <==> ControlInRange(got)
  {
    Sensors.StatusControlLaid();
    Messages.StatusControlSound();
    ControlSays(c);
    ghost var e;
    accepted, rest, bits, d, e := Received(Sensors.STATUS_CONTROL_TABLE, Sensors.StatusControl(), ControlTree(c),
                                           ControlText(c) + behind, behind, clock);
    got := ControlAlike(c, e);
    ControlSays(got);
  }
}
