/** The automata put together: round trips, agreement of the readers, and the configuration path. */
module Messages {
  import opened Bits
  import opened Wire
  import opened Automata
  import opened Events
  import opened Grammar
  import opened Loss
  import opened Sensors
  import Dom2Bin
  import Bin2Dom
  import Bin2Sax
  import Sax2Bin

  // ---------------------------------------------------------------- the three schemas

  lemma LeavesSound()
    ensures SoundLeaf(SHORT) && SoundLeaf(UNSIGNED_SHORT) && SoundLeaf(BYTE)
    ensures SoundLeaf(UNSIGNED_BYTE) && SoundLeaf(TEMPERATURE) && SoundLeaf(TIME)
  {
  }

  /** The windows of the codes in numbers. */
  lemma Windows(n: int, sec: int, frac: int)
    ensures InRangeValue(RoundedDown, TEMPERATURE, Int(n)) <==> -20 <= n <= 107
    ensures InRangeValue(RoundedDown, BYTE, Int(n)) <==> -128 <= n <= 127
    ensures InRangeValue(RoundedDown, UNSIGNED_BYTE, Int(n)) <==> 0 <= n <= 255
    ensures InRangeValue(RoundedDown, SHORT, Int(n)) <==> -32768 <= n <= 32767
    ensures InRangeValue(RoundedDown, UNSIGNED_SHORT, Int(n)) <==> 0 <= n <= 65535
    ensures InRangeValue(RoundedDown, TIME, Time(sec, frac)) <==> 0 <= sec <= 0xFFFF_FFFF && 0 <= frac <= 65535
  {
    assert Pow2(16) == 65536 && Pow2(12) == 4096;
    Pow2Product(16, 16);
  }

  lemma ConfigSound(tag: string)
    ensures Sound(SensorConfig(tag)) && Distinct(SensorConfig(tag))
  {
    RateSound("sens:Acceleration");
    RateSound("sens:Audio");
    RateSound("sens:Light");
    RateSound("sens:AmbientLight");
    RateSound("sens:Force");
    RateSound("sens:Temperature");
  }

  lemma RateSound(tag: string)
    ensures Sound(RateConfig(tag)) && Distinct(RateConfig(tag))
  {
    LeavesSound();
  }

  lemma TailSound()
    ensures SoundFields(VoltageAndTimes()) && DistinctFields(VoltageAndTimes())
    ensures Tags(VoltageAndTimes()) == {"sens:BatteryVoltage", "sens:CurrentTime", "sens:UpTime"}
  {
    LeavesSound();
  }

  lemma PartsSound()
    ensures Sound(Accelleration()) && Sound(Audio()) && Sound(Light()) && Sound(Force()) && Sound(Temperature())
  {
    LeavesSound();
  }

  lemma SampleSound()
    ensures Sound(Sample()) && Distinct(Sample())
  {
    PartsSound();
    LeavesSound();
  }

  lemma StatusSound()
    ensures Sound(Status()) && Distinct(Status())
  {
    TailSound();
    ConfigSound("sens:SensorConfig");
    ConfigSound("sens:AllSensorConfig");
    TwoAndTail("sens:Status", SensorConfig("sens:SensorConfig"), SensorConfig("sens:AllSensorConfig"), VoltageAndTimes());
  }

  lemma TwoAndTail(tag: string, a: Schema, b: Schema, tail: Fields)
    requires Sound(a) && Sound(b) && SoundFields(tail)
    requires Distinct(a) && Distinct(b) && DistinctFields(tail)
    requires a.tag != b.tag && a.tag !in Tags(tail) && b.tag !in Tags(tail)
    ensures var s := Complex(tag, Field(false, a, Field(false, b, tail)));
            Sound(s) && Distinct(s)
  {
    var fs := Field(false, b, tail);
    assert SoundFields(fs) && DistinctFields(fs);
  }

  lemma StatusControlSound()
    ensures Sound(StatusControl()) && Distinct(StatusControl())
  {
    LeavesSound();
    ConfigSound("sens:SensorConfig");
    TwoOptional("sens:StatusControl", SensorConfig("sens:SensorConfig"), Simple("sens:NewTime", TIME));
  }

  lemma TwoOptional(tag: string, a: Schema, b: Schema)
    requires Sound(a) && Sound(b) && Distinct(a) && Distinct(b) && a.tag != b.tag
    ensures var s := Complex(tag, Field(true, a, Field(true, b, Done)));
            Sound(s) && Distinct(s)
  {
    var fs := Field(true, b, Done);
    assert SoundFields(fs) && DistinctFields(fs);
  }

  // ---------------------------------------------------------------- node to gateway and back

  /** dom2bin, any bits behind it, bin2dom: the structure comes back, up to the rounding of fractions, exactly
      if its numbers are in range; just the bits written are consumed. */
  method RoundTrip(table: seq<State>, s: Schema, d: Dom, tail: seq<bool>) returns (d': Dom, rest: seq<bool>)
    requires Laid(table, s) && Sound(s) && Conforms(s, d) && Small(s, d)
    ensures rest == tail
    ensures d' == Norm(s, d)
    ensures Alike(RoundedDown, s, d, d') <==> InRange(RoundedDown, s, d)
  {
    var writer := new BitWriter();
    Dom2Bin.Dom2BinRun(table, s, d, writer);
    var reader := new BitReader(writer.bits + tail);
    ParseOfEncode(s, d, tail, true);
    assert writer.bits == Encode(s, d);
    var r;
    r, d' := Bin2Dom.Bin2DomRun(table, s, reader);
    rest := reader.rest;
    AlikeSelf(s, d);
    NormExact(RoundedDown, s, d, d);
  }

  method SampleRoundTrip(d: Dom, tail: seq<bool>) returns (d': Dom, rest: seq<bool>)
    requires Conforms(Sample(), d) && Small(Sample(), d)
    ensures rest == tail
    ensures Alike(RoundedDown, Sample(), d, d') <==> InRange(RoundedDown, Sample(), d)
  {
    SampleLaid();
    SampleSound();
    d', rest := RoundTrip(SAMPLE_TABLE, Sample(), d, tail);
  }

  method StatusRoundTrip(d: Dom, tail: seq<bool>) returns (d': Dom, rest: seq<bool>)
    requires Conforms(Status(), d) && Small(Status(), d)
    ensures rest == tail
    ensures Alike(RoundedDown, Status(), d, d') <==> InRange(RoundedDown, Status(), d)
  {
    StatusLaid();
    StatusSound();
    d', rest := RoundTrip(STATUS_TABLE, Status(), d, tail);
  }

  // ---------------------------------------------------------------- the two readers

  /** bin2dom and bin2sax on one bit stream: where the first returns, the second returns too, stops at the same
      bit and has put out the printed form of the structure. Where only the second returns, an element was
      repeated, and the first fails on the full list. */
  method TwoReaders(table: seq<State>, s: Schema, bits: seq<bool>)
    returns (r: Bin2Dom.Outcome, d: Dom, rest: seq<bool>, ok: bool, out: seq<Event>, rest': seq<bool>)
    requires Laid(table, s) && Sound(s)
    ensures r.Fine? ==> ok && out == Render(s, d) && rest == rest' && Conforms(s, d) && Small(s, d)
    ensures ok && !r.Fine? ==> r.NullPointer?
    ensures ok ==> exists e :: Conforms(s, e) && out == Render(s, e) && bits == Encode(s, e) + rest'
                               && (r.Fine? <==> Small(s, e))
  {
    var reader := new BitReader(bits);
    r, d := Bin2Dom.Bin2DomRun(table, s, reader);
    rest := reader.rest;
    var reader2 := new BitReader(bits);
    ok, out := Bin2Sax.Bin2SaxRun(table, s, reader2, []);
    rest' := reader2.rest;
    BoundedParse(s, bits);
    if ok {
      EncodeOfParse(s, bits, false);
      ghost var e := Parse(s, bits, false).v;
      assert out == Render(s, e);
    }
  }

  /** The bounded parse is the unbounded one where that finds no repetition, and `Full` elsewhere or at the end
      of the bits. */
  lemma BoundedParse(s: Schema, bits: seq<bool>)
    requires Sound(s)
    ensures var a, b := Parse(s, bits, true), Parse(s, bits, false);
            && (a.Ok? ==> a == b && Small(s, a.v) && Conforms(s, a.v))
            && (b.Ok? && Small(s, b.v) ==> a == b)
            && (b.Ok? && !a.Ok? ==> a.Full?)
  {
    var a, b := Parse(s, bits, true), Parse(s, bits, false);
    if a.Ok? {
      EncodeOfParse(s, bits, true);
      ParseOfEncode(s, a.v, a.rest, false);
    }
    if b.Ok? {
      EncodeOfParse(s, bits, false);
      if Small(s, b.v) {
        ParseOfEncode(s, b.v, b.rest, true);
      }
      NoEarlyEof(s, bits);
    }
  }

  lemma {:induction false} NoEarlyEof(s: Schema, bits: seq<bool>)
    requires Parse(s, bits, false).Ok?
    ensures var a := Parse(s, bits, true);
            a.Full? || a == Parse(s, bits, false)
    decreases |bits|, s, 0
  {
    if s.Complex? {
      NoEarlyEofFields(s.fields, bits);
    }
  }

  lemma {:induction false} NoEarlyEofFields(fs: Fields, bits: seq<bool>)
    requires ParseFields(fs, bits, false).Ok?
    ensures var a := ParseFields(fs, bits, true);
            a.Full? || a == ParseFields(fs, bits, false)
    decreases |bits|, fs, 0
  {
    if fs.Field? {
      var r := ParseSlot(fs.opt, fs.sub, bits, false);
      if fs.opt {
        NoEarlyEofList(fs.sub, bits, 0);
      } else {
        NoEarlyEof(fs.sub, bits);
      }
      NoEarlyEofFields(fs.rest, r.rest);
    }
  }

  lemma {:induction false} NoEarlyEofList(sub: Schema, bits: seq<bool>, have: nat)
    requires ParseList(sub, bits, false, have).Ok?
    ensures var a := ParseList(sub, bits, true, have);
            a.Full? || a == ParseList(sub, bits, false, have)
    decreases |bits|, sub, 1
  {
    if bits[0] && have == 0 {
      NoEarlyEof(sub, bits[1..]);
      NoEarlyEofList(sub, Parse(sub, bits[1..], false).rest, have + 1);
    }
  }

  /** What bin2sax puts out determines the bits it consumed, repetitions included, and is well nested. */
  lemma OutputDeterminesBits(s: Schema, bits: seq<bool>, bits': seq<bool>)
    requires Sound(s) && Distinct(s)
    requires Parse(s, bits, false).Ok? && Parse(s, bits', false).Ok?
    requires Render(s, Parse(s, bits, false).v) == Render(s, Parse(s, bits', false).v)
    ensures var code := Encode(s, Parse(s, bits, false).v);
            bits == code + Parse(s, bits, false).rest && bits' == code + Parse(s, bits', false).rest
    ensures WellNested(Render(s, Parse(s, bits, false).v), [])
  {
    var Ok(d, rest) := Parse(s, bits, false);
    var Ok(d', rest') := Parse(s, bits', false);
    EncodeOfParse(s, bits, false);
    EncodeOfParse(s, bits', false);
    assert Render(s, d) + [] == Render(s, d') + [];
    RenderInjective(s, d, [], d', []);
    RenderWellNested(s, d, [], []);
    assert Render(s, d) + [] == Render(s, d);
  }

  /** A structure written by the node and printed by the gateway: the print of what came over the wire. */
  method Printed(table: seq<State>, s: Schema, d: Dom) returns (out: seq<Event>)
    requires Laid(table, s) && Sound(s) && Conforms(s, d) && Small(s, d)
    ensures out == Render(s, Norm(s, d))
    ensures Alike(RoundedDown, s, d, Norm(s, d)) <==> InRange(RoundedDown, s, d)
  {
    var writer := new BitWriter();
    Dom2Bin.Dom2BinRun(table, s, d, writer);
    var bits := writer.bits;
    assert bits == Encode(s, d) + [];
    ParseOfEncode(s, d, [], false);
    AlikeSelf(s, d);
    NormExact(RoundedDown, s, d, d);
    var reader := new BitReader(bits);
    var ok;
    ok, out := Bin2Sax.Bin2SaxRun(table, s, reader, []);
    assert out == Render(s, Norm(s, d));
  }

  method PrintedSample(d: Dom) returns (out: seq<Event>)
    requires Conforms(Sample(), d) && Small(Sample(), d)
    ensures out == Render(Sample(), Norm(Sample(), d))
    ensures Alike(RoundedDown, Sample(), d, Norm(Sample(), d)) <==> InRange(RoundedDown, Sample(), d)
  {
    SampleLaid();
    SampleSound();
    out := Printed(SAMPLE_TABLE, Sample(), d);
  }

  // ---------------------------------------------------------------- the configuration path

  /** A printed tree, sax2bin at the gateway, bin2dom at the node: the tree arrives, up to fractions of
      seconds, exactly if its numbers are in range, whatever the unassigned tv_usec holds. */
  method SentTree(table: seq<State>, s: Schema, d: Dom, behind: seq<Event>, clock: Clock) returns (d': Dom)
    requires Laid(table, s) && Sound(s) && Distinct(s) && Conforms(s, d) && Small(s, d)
    ensures Alike(UpToFraction, s, d, d') <==> InRange(UpToFraction, s, d)
  {
    var ev := Render(s, d) + behind;
    ghost var e := AcceptDocument(s, ev, clock);
    assert e.Got? && Alike(UpToFraction, s, d, e.v) by {
      PrintIsAccepted(s, d, ev, behind, clock);
    }
    AlikeShape(UpToFraction, s, d, e.v);
    var writer := new BitWriter();
    var ok, _ := Sax2Bin.Sax2BinRun(table, s, ev, clock, writer);
    assert writer.bits == Encode(s, e.v) + [];
    ParseOfEncode(s, e.v, [], true);
    var reader := new BitReader(writer.bits);
    var r;
    r, d' := Bin2Dom.Bin2DomRun(table, s, reader);
    NormExact(UpToFraction, s, d, e.v);
  }

  method ConfigPath(d: Dom, behind: seq<Event>, clock: Clock) returns (d': Dom)
    requires Conforms(StatusControl(), d) && Small(StatusControl(), d)
    ensures Alike(UpToFraction, StatusControl(), d, d') <==> InRange(UpToFraction, StatusControl(), d)
  {
    StatusControlLaid();
    StatusControlSound();
    d' := SentTree(STATUS_CONTROL_TABLE, StatusControl(), d, behind, clock);
  }
}
