/** Documents that sax2bin accepts and that do not arrive, whatever its unassigned variables hold. */
module Misdelivery {
  import opened Bits
  import opened Wire
  import opened Events
  import opened Grammar
  import opened Sensors
  import opened Messages
  import opened Delivery

  // ---------------------------------------------------------------- documents without their first element

  /** A document of two optional elements of which the first is absent. */
  predicate OfTwo(s: Schema, a: Schema, b: Schema) {
    s == Complex(s.tag, Field(true, a, Field(true, b, Done)))
  }

  lemma EncodeWithoutFirst(s: Schema, a: Schema, b: Schema, list: seq<Dom>)
    requires OfTwo(s, a, b)
    ensures Encode(s, Struct([[], list])) == [false] + EncodeList(b, list)
  {
    var slots: seq<seq<Dom>> := [[], list];
    var fs := Field(true, b, Done);
    assert EncodeSlot(true, a, slots[0]) == [false];
    assert slots[1..] == [list] && slots[1..][1..] == [];
    assert EncodeFields(Done, slots[1..][1..]) == [];
    assert EncodeFields(fs, slots[1..]) == EncodeList(b, list) + [];
    assert EncodeFields(s.fields, slots) == [false] + EncodeFields(fs, slots[1..]);
  }

  lemma ParseWithoutFirst(s: Schema, a: Schema, b: Schema, bits: seq<bool>)
    requires OfTwo(s, a, b)
    ensures Parse(s, [false] + bits, true) ==
            match ParseList(b, bits, true, 0)
            case Ok(l, rest) => Ok(Struct([[], l]), rest)
            case Eof => Eof
            case Full => Full
  {
    var all, fs := [false] + bits, Field(true, b, Done);
    assert all[1..] == bits;
    assert ParseSlot(true, a, all, true) == Ok([], bits);
    var r := ParseList(b, bits, true, 0);
    assert ParseSlot(true, b, bits, true) == r;
    match r
    case Ok(l, rest) =>
      assert ParseFields(Done, rest, true) == Ok([], rest);
      assert ParseFields(fs, bits, true) == Ok([l] + [], rest);
      assert [[]] + ([l] + []) == [[], l];
      assert ParseFields(s.fields, all, true) == Ok([[], l], rest);
      assert Parse(s, all, true) == Ok(Struct([[], l]), rest);
    case Eof =>
      assert ParseFields(fs, bits, true) == Eof;
    case Full =>
      assert ParseFields(fs, bits, true) == Full;
  }

  lemma AcceptWithoutFirst(s: Schema, a: Schema, b: Schema, ev: seq<Event>, list: seq<Dom>, clock: Clock)
    requires OfTwo(s, a, b) && !IsOpen(ev, a.tag)
    requires AcceptList(b, ev, clock) == Got(list, [Close(s.tag)])
    ensures AcceptDocument(s, [Open(s.tag)] + ev, clock) == Got(Struct([[], list]), [])
  {
    var all, fs, tail := [Open(s.tag)] + ev, Field(true, b, Done), [Close(s.tag)];
    assert all[1..] == ev && tail[1..] == [];
    assert AcceptSlot(true, a, ev, clock) == Got([], ev);
    assert AcceptFields(Done, tail, clock) == Got([], tail);
    assert AcceptFields(fs, ev, clock) == Got([list] + [], tail);
    assert AcceptFields(s.fields, ev, clock) == Got([[]] + ([list] + []), tail);
    assert [[]] + ([list] + []) == [[], list];
  }

  // ---------------------------------------------------------------- times that do not parse

  function TimeEvents(tag: string, v: Value): seq<Event> {
    [Open(tag), Text(v), Close(tag)]
  }

  /** What is stored of a time when n events are left: its fraction is not that of the text. */
  function Stored(v: Value, clock: Clock, n: nat): Value {
    if v.Time? && clock.Stale? then Time(v.sec, clock.f(n)) else v
  }

  /** The events of a time in front of others. */
  lemma OneMoreTime(tag: string, leaf: Leaf, v: Value, ev: seq<Event>, list: seq<Dom>, rest: seq<Event>, clock: Clock)
    requires leaf.TimeLeaf? && AcceptList(Simple(tag, leaf), ev, clock) == Got(list, rest)
    requires v == Lost || v.Time?
    ensures AcceptList(Simple(tag, leaf), TimeEvents(tag, v) + ev, clock) == Got([Val(Stored(v, clock, |ev| + 2))] + list, rest)
  {
    var all := TimeEvents(tag, v) + ev;
    assert all[1..][1..][1..] == ev;
  }

  /** A document of one time that does not parse: the bits end too soon. */
  lemma LostTime(s: Schema, a: Schema, tag: string, leaf: Leaf, clock: Clock)
    requires OfTwo(s, a, Simple(tag, leaf)) && a.tag != tag && leaf.TimeLeaf? && leaf.secs > 0
    ensures var r := AcceptDocument(s, [Open(s.tag)] + (TimeEvents(tag, Lost) + [Close(s.tag)]), clock);
            r == Got(Struct([[], [Val(Lost)]]), []) && Parse(s, Encode(s, r.v), true) == Eof
  {
    var b, tail := Simple(tag, leaf), [Close(s.tag)];
    assert AcceptList(b, tail, clock) == Got([], tail);
    OneMoreTime(tag, leaf, Lost, tail, [], tail, clock);
    assert [Val(Lost)] + [] == [Val(Lost)];
    AcceptWithoutFirst(s, a, b, TimeEvents(tag, Lost) + tail, [Val(Lost)], clock);
    EncodeWithoutFirst(s, a, b, [Val(Lost)]);
    var bits := [true] + [] + [false];
    assert [Val(Lost)][1..] == [] && bits[1..] == [false];
    assert ParseList(b, bits, true, 0) == Eof;
    ParseWithoutFirst(s, a, b, bits);
  }

  lemma LostThenGoodAccepted(s: Schema, a: Schema, tag: string, leaf: Leaf, clock: Clock)
    requires OfTwo(s, a, Simple(tag, leaf)) && a.tag != tag && leaf.TimeLeaf?
    ensures var ev := TimeEvents(tag, Lost) + (TimeEvents(tag, Time(1, 0)) + [Close(s.tag)]);
            AcceptDocument(s, [Open(s.tag)] + ev, clock) == Got(Struct([[], [Val(Lost), Val(Time(1, Junk(clock, 3)))]]), [])
  {
    var b, tail := Simple(tag, leaf), [Close(s.tag)];
    var second := TimeEvents(tag, Time(1, 0)) + tail;
    var one := [Val(Time(1, Junk(clock, 3)))];
    assert AcceptList(b, tail, clock) == Got([], tail);
    OneMoreTime(tag, leaf, Time(1, 0), tail, [], tail, clock);
    assert one + [] == one;
    OneMoreTime(tag, leaf, Lost, second, one, tail, clock);
    assert [Val(Lost)] + one == [Val(Lost), one[0]];
    AcceptWithoutFirst(s, a, b, TimeEvents(tag, Lost) + second, [Val(Lost), one[0]], clock);
  }

  // ---------------------------------------------------------------- bits read one place further on

  lemma DivDiv(v: int, m: nat)
    requires m > 0
    ensures (v / 2) / m == v / (2 * m)
  {
    var q, r := (v / 2) / m, (v / 2) % m;
    assert v == 2 * (v / 2) + v % 2;
    assert v == (2 * m) * q + (2 * r + v % 2) by {
      assert 2 * (m * q + r) == (2 * m) * q + 2 * r;
    }
    ModUnique(v, 2 * m, q, 2 * r + v % 2);
  }

  /** The last bit of a code. */
  lemma {:induction false} LastBit(v: int, n: nat)
    ensures ToBits(v, n + 1) == ToBits(v, n) + [(v / Pow2(n)) % 2 == 1]
    decreases n
  {
    if n > 0 {
      LastBit(v / 2, n - 1);
      DivDiv(v, Pow2(n - 1));
    }
  }

  function Zeros(n: nat): seq<bool> {
    seq(n, _ => false)
  }

  lemma {:induction false} ZerosAreZero(n: nat)
    ensures ToBits(0, n) == Zeros(n) && FromBits(Zeros(n)) == 0
  {
    if n > 0 {
      ZerosAreZero(n - 1);
      assert Zeros(n) == [false] + Zeros(n - 1);
    }
  }

  lemma Three(n: nat)
    ensures FromBits([true] + ([true] + Zeros(n))) == 3
  {
    ZerosAreZero(n);
    assert ([true] + Zeros(n))[1..] == Zeros(n);
    assert ([true] + ([true] + Zeros(n)))[1..] == [true] + Zeros(n);
  }

  /** The code of 1 s and a fraction, behind one more bit: 3 s, twice the fraction, and the fraction's last bit. */
  lemma ShiftedCode(leaf: Leaf, j: int) returns (w: seq<bool>, last: bool)
    requires leaf.TimeLeaf? && leaf.secs >= 2 && 1 <= leaf.fracs <= leaf.cfrac
    ensures [true] + EncodeLeaf(leaf, Time(1, j)) == w + [last] && |w| == LeafWidth(leaf)
    ensures DecodeLeaf(leaf, w) == Time(3, 32 * ((j / 16) % Pow2(leaf.fracs - 1)))
    ensures last == ((j / 16 / Pow2(leaf.fracs - 1)) % 2 == 1)
  {
    var secs, n, u := leaf.secs, leaf.fracs - 1, j / 16;
    ToBitsOfMod(u, leaf.cfrac, leaf.fracs);
    LastBit(u, n);
    ZerosAreZero(secs - 1);
    last := (u / Pow2(n)) % 2 == 1;
    var low := [false] + ToBits(u, n);
    w := [true] + ([true] + Zeros(secs - 2)) + low;
    assert Zeros(secs - 1) == Zeros(secs - 2) + [false];
    assert EncodeLeaf(leaf, Time(1, j)) == [true] + Zeros(secs - 1) + (ToBits(u, n) + [last]);
    assert [true] + EncodeLeaf(leaf, Time(1, j)) == w + [last];
    assert w[..secs] == [true] + ([true] + Zeros(secs - 2)) && w[secs..] == low;
    Three(secs - 2);
    assert low[1..] == ToBits(u, n);
    ReadBackMod(u, n);
  }

  /** The two continuation bits of a lost time and of the time behind it, read as one bit and a time. The last
      bit of the fraction is then read as a continuation bit. */
  lemma ShiftedTime(leaf: Leaf, j: int, tag: string)
    requires leaf.TimeLeaf? && leaf.secs >= 2 && 1 <= leaf.fracs <= leaf.cfrac
    ensures ParseList(Simple(tag, leaf), [true] + ([true] + EncodeLeaf(leaf, Time(1, j)) + [false]), true, 0) ==
            if (j / 16 / Pow2(leaf.fracs - 1)) % 2 == 1 then Full
            else Ok([Val(Time(3, 32 * ((j / 16) % Pow2(leaf.fracs - 1))))], [false])
  {
    var w, last := ShiftedCode(leaf, j);
    var more := [true] + EncodeLeaf(leaf, Time(1, j)) + [false];
    var bits := [true] + more;
    var tail := [last, false];
    assert bits[1..] == more && more == w + tail;
    assert more[..LeafWidth(leaf)] == w && more[LeafWidth(leaf)..] == tail;
    assert Parse(Simple(tag, leaf), more, true) == Ok(Val(DecodeLeaf(leaf, w)), tail);
    assert tail[1..] == [false];
    if !last {
      assert ParseList(Simple(tag, leaf), tail, true, 1) == Ok([], [false]);
      assert [Val(DecodeLeaf(leaf, w))] + [] == [Val(DecodeLeaf(leaf, w))];
    }
  }

  lemma LostThenGoodParsed(s: Schema, a: Schema, tag: string, leaf: Leaf, j: int)
    requires OfTwo(s, a, Simple(tag, leaf))
    requires leaf.TimeLeaf? && leaf.secs >= 2 && 1 <= leaf.fracs <= leaf.cfrac
    ensures Parse(s, Encode(s, Struct([[], [Val(Lost), Val(Time(1, j))]])), true) ==
            if (j / 16 / Pow2(leaf.fracs - 1)) % 2 == 1 then Full
            else Ok(Struct([[], [Val(Time(3, 32 * ((j / 16) % Pow2(leaf.fracs - 1))))]]), [false])
  {
    var b := Simple(tag, leaf);
    var one, list := [Val(Time(1, j))], [Val(Lost), Val(Time(1, j))];
    assert one[1..] == [] && list[1..] == one;
    var bits := [true] + ([true] + EncodeLeaf(leaf, Time(1, j)) + [false]);
    assert EncodeList(b, one) == [true] + EncodeLeaf(leaf, Time(1, j)) + [false];
    assert EncodeList(b, list) == [true] + [] + EncodeList(b, one) == bits;
    EncodeWithoutFirst(s, a, b, list);
    ShiftedTime(leaf, j, tag);
    ParseWithoutFirst(s, a, b, bits);
  }

  // ---------------------------------------------------------------- times that are lost

  /** A new time whose text does not parse is accepted, but only its continuation bit is written, and the node
      runs out of bits. */
  lemma UnparsableTime(clock: Clock)
    ensures var ev := [Open("sens:StatusControl"), Open("sens:NewTime"), Text(Lost),
                       Close("sens:NewTime"), Close("sens:StatusControl")];
            var r := AcceptDocument(StatusControl(), ev, clock);
            r.Got? && Parse(StatusControl(), Encode(StatusControl(), r.v), true) == Eof
  {
    LostTime(StatusControl(), SensorConfig("sens:SensorConfig"), "sens:NewTime", TIME, clock);
    assert [Open("sens:StatusControl")] + (TimeEvents("sens:NewTime", Lost) + [Close("sens:StatusControl")]) ==
           [Open("sens:StatusControl"), Open("sens:NewTime"), Text(Lost), Close("sens:NewTime"), Close("sens:StatusControl")];
  }

  /** Followed by a new time of 1 s it makes the node set its clock to 3 s, which nobody sent, with one bit left.
      Or, if bit 15 of the unassigned tv_usec is set, it makes the node dereference the null pointer for a
      second new time. */
  lemma WrongTime(clock: Clock)
    ensures var ev := [Open("sens:StatusControl"),
                       Open("sens:NewTime"), Text(Lost), Close("sens:NewTime"),
                       Open("sens:NewTime"), Text(Time(1, 0)), Close("sens:NewTime"),
                       Close("sens:StatusControl")];
            var r, usec := AcceptDocument(StatusControl(), ev, clock), Junk(clock, 3);
            && r.Got?
            && Parse(StatusControl(), Encode(StatusControl(), r.v), true) ==
               if (usec / 0x8000) % 2 == 1 then Full
               else Ok(Struct([[], [Val(Time(3, 32 * ((usec / 16) % 2048)))]]), [false])
  {
    LostThenGoodAccepted(StatusControl(), SensorConfig("sens:SensorConfig"), "sens:NewTime", TIME, clock);
    LostThenGoodParsed(StatusControl(), SensorConfig("sens:SensorConfig"), "sens:NewTime", TIME, Junk(clock, 3));
    Bit15(Junk(clock, 3));
    assert [Open("sens:StatusControl")]
           + (TimeEvents("sens:NewTime", Lost) + (TimeEvents("sens:NewTime", Time(1, 0)) + [Close("sens:StatusControl")])) ==
           [Open("sens:StatusControl"),
            Open("sens:NewTime"), Text(Lost), Close("sens:NewTime"),
            Open("sens:NewTime"), Text(Time(1, 0)), Close("sens:NewTime"),
            Close("sens:StatusControl")];
  }

  lemma Bit15(j: int)
    ensures Pow2(11) == 2048 && (j / 16) / Pow2(11) == j / 0x8000
  {
  }

  // ---------------------------------------------------------------- numbers that do not parse

  /** One optional element absent, or present once, in front of other fields. */
  lemma AcceptSkip(sub: Schema, rest: Fields, ev: seq<Event>, slots: seq<seq<Dom>>, tail: seq<Event>, clock: Clock)
    requires !IsOpen(ev, sub.tag) && AcceptFields(rest, ev, clock) == Got(slots, tail)
    ensures AcceptFields(Field(true, sub, rest), ev, clock) == Got([[]] + slots, tail)
  {
    assert AcceptSlot(true, sub, ev, clock) == Got([], ev);
  }

  lemma AcceptTake(sub: Schema, rest: Fields, ev: seq<Event>, d: Dom, ev1: seq<Event>, slots: seq<seq<Dom>>,
                   tail: seq<Event>, clock: Clock)
    requires IsOpen(ev, sub.tag) && Accept(sub, ev[1..], clock) == Got(d, ev1) && !IsOpen(ev1, sub.tag)
    requires AcceptFields(rest, ev1, clock) == Got(slots, tail)
    ensures AcceptFields(Field(true, sub, rest), ev, clock) == Got([[d]] + slots, tail)
  {
    assert AcceptList(sub, ev1, clock) == Got([], ev1);
    assert [d] + [] == [d];
    assert AcceptSlot(true, sub, ev, clock) == Got([d], ev1);
  }

  /** The text of a rate is lost: the unassigned variable is taken for it. */
  lemma AcceptLostRate(tag: string, rest: seq<Event>, clock: Clock)
    ensures Accept(RateConfig(tag), [Open("sens:rate"), Text(Lost), Close("sens:rate"), Close(tag)] + rest, clock)
            == Got(Struct([[Val(Int(Junk(clock, |rest| + 3)))]]), rest)
  {
    var ev := [Open("sens:rate"), Text(Lost), Close("sens:rate"), Close(tag)] + rest;
    var tail := [Close(tag)] + rest;
    var v := Val(Int(Junk(clock, |rest| + 3)));
    assert ev[1..][1..][1..] == tail && tail[1..] == rest;
    assert |ev[1..]| == |rest| + 3;
    assert Accept(Simple("sens:rate", BYTE), ev[1..], clock) == Got(v, tail);
    assert AcceptFields(Done, tail, clock) == Got([], tail);
    assert AcceptFields(Field(false, Simple("sens:rate", BYTE), Done), ev, clock) == Got([[v]] + [], tail);
    assert [[v]] + [] == [[v]];
  }

  function RateOf(n: int): Dom {
    Struct([[Val(Int(n))]])
  }

  /** The fourth of the six rates alone. */
  lemma AcceptConfig(ev: seq<Event>, d: Dom, tail: seq<Event>, clock: Clock)
    requires IsOpen(ev, "sens:AmbientLight") && Accept(RateConfig("sens:AmbientLight"), ev[1..], clock) == Got(d, tail)
    requires IsClose(tail, "sens:SensorConfig")
    ensures Accept(SensorConfig("sens:SensorConfig"), ev, clock) == Got(Struct([[], [], [], [d], [], []]), tail[1..])
  {
    var f6 := Field(true, RateConfig("sens:Temperature"), Done);
    var f5 := Field(true, RateConfig("sens:Force"), f6);
    var f4 := Field(true, RateConfig("sens:AmbientLight"), f5);
    var f3 := Field(true, RateConfig("sens:Light"), f4);
    var f2 := Field(true, RateConfig("sens:Audio"), f3);
    AcceptSkip(RateConfig("sens:Temperature"), Done, tail, [], tail, clock);
    AcceptSkip(RateConfig("sens:Force"), f6, tail, [[]] + [], tail, clock);
    AcceptTake(RateConfig("sens:AmbientLight"), f5, ev, d, tail, [[]] + ([[]] + []), tail, clock);
    AcceptSkip(RateConfig("sens:Light"), f4, ev, [[d]] + ([[]] + ([[]] + [])), tail, clock);
    AcceptSkip(RateConfig("sens:Audio"), f3, ev, [[]] + ([[d]] + ([[]] + ([[]] + []))), tail, clock);
    AcceptSkip(RateConfig("sens:Acceleration"), f2, ev, [[]] + ([[]] + ([[d]] + ([[]] + ([[]] + [])))), tail, clock);
    assert [[]] + ([[]] + ([[]] + ([[d]] + ([[]] + ([[]] + []))))) == [[], [], [], [d], [], []];
  }

  lemma AcceptWithoutSecond(s: Schema, a: Schema, b: Schema, ev: seq<Event>, c: Dom, clock: Clock)
    requires OfTwo(s, a, b) && IsOpen(ev, a.tag) && Accept(a, ev[1..], clock) == Got(c, [Close(s.tag)])
    ensures AcceptDocument(s, [Open(s.tag)] + ev, clock) == Got(Struct([[c], []]), [])
  {
    var all, tail := [Open(s.tag)] + ev, [Close(s.tag)];
    assert all[1..] == ev && tail[1..] == [];
    AcceptSkip(b, Done, tail, [], tail, clock);
    AcceptTake(a, Field(true, b, Done), ev, c, tail, [[]] + [], tail, clock);
    assert [[c]] + ([[]] + []) == [[c], []];
  }

  function RateDocument(v: Value): seq<Event> {
    [Open("sens:StatusControl"), Open("sens:SensorConfig"), Open("sens:AmbientLight"),
     Open("sens:rate"), Text(v), Close("sens:rate"),
     Close("sens:AmbientLight"), Close("sens:SensorConfig"), Close("sens:StatusControl")]
  }

  function RateTree(n: int): Dom {
    Struct([[Struct([[], [], [], [RateOf(n)], [], []])], []])
  }

  lemma RateDocumentRead(clock: Clock)
    ensures AcceptDocument(StatusControl(), RateDocument(Lost), clock) == Got(RateTree(Junk(clock, 5)), [])
  {
    var ev := RateDocument(Lost);
    var end := [Close("sens:StatusControl")];
    var rest := [Close("sens:SensorConfig")] + end;
    var rate := [Open("sens:rate"), Text(Lost), Close("sens:rate"), Close("sens:AmbientLight")] + rest;
    var light := [Open("sens:AmbientLight")] + rate;
    var config := [Open("sens:SensorConfig")] + light;
    assert light[1..] == rate && config[1..] == light && rest[1..] == end && end[1..] == [];
    assert ev == [Open("sens:StatusControl")] + config && ev[1..] == config;
    AcceptLostRate("sens:AmbientLight", rest, clock);
    var d := RateOf(Junk(clock, 5));
    AcceptConfig(light, d, rest, clock);
    AcceptWithoutSecond(StatusControl(), SensorConfig("sens:SensorConfig"), Simple("sens:NewTime", TIME), config,
                        Struct([[], [], [], [d], [], []]), clock);
  }

  /** Its times parse and nothing in it is repeated; only the texts of its simple elements tell. */
  lemma RateDocumentTells()
    ensures var ev := RateDocument(Lost);
            TimesParse(TIME_TAGS, ev) && NothingRepeated(ev)
            && !Texted({("sens:rate", BYTE), ("sens:NewTime", TIME)}, ev)
  {
    var ev := RateDocument(Lost);
    forall i | 0 <= i < |ev| - 1
      ensures TimeFollows(TIME_TAGS, ev[i], ev[i + 1]) && Different(ev[i], ev[i + 1])
    {
    }
    var rate := ("sens:rate", BYTE);
    assert rate in {rate, ("sens:NewTime", TIME)} && ev[3] == Open(rate.0) && !HasText(rate.1, ev, 3 + 1);
  }

  /** What was read of a document arrives if its times parse and nothing is repeated. */
  lemma ReadArrives(s: Schema, ev: seq<Event>, clock: Clock, times: set<string>, e: Dom)
    requires Sound(s) && Distinct(s) && TimeTags(s, times) && AcceptDocument(s, ev, clock) == Got(e, [])
    requires TimesParse(times, ev) && NothingRepeated(ev)
    ensures Parse(s, Encode(s, e), true) == Ok(Norm(s, e), [])
  {
    AcceptedArrivesExactly(s, ev, clock, times);
    assert Read(ev, []) == ev;
  }

  /** A rate whose text does not parse is accepted, and what the unassigned variable holds is written and arrives
      as a rate that nobody sent. */
  lemma UnparsableRate(clock: Clock)
    ensures var ev, e := RateDocument(Lost), RateTree(Junk(clock, 5));
            && AcceptDocument(StatusControl(), ev, clock) == Got(e, [])
            && TimesParse(TIME_TAGS, ev) && NothingRepeated(ev) && !Texted(SimpleTags(StatusControl()), ev)
            && Parse(StatusControl(), Encode(StatusControl(), e), true) == Ok(Norm(StatusControl(), e), [])
  {
    RateDocumentRead(clock);
    RateDocumentTells();
    StatusControlSound();
    ControlTimes();
    ControlTagsTell();
    ReadArrives(StatusControl(), RateDocument(Lost), clock, TIME_TAGS, RateTree(Junk(clock, 5)));
  }

  /** That can be any rate: for every n there is a content of the variable that makes it n. */
  lemma AnyRate(n: int)
    ensures exists clock :: Junk(clock, 5) == n
  {
    assert Junk(Stale((k: nat) => n), 5) == n;
  }

  lemma RateInRange(tag: string, n: int)
    requires -128 <= n <= 127
    ensures Norm(RateConfig(tag), RateOf(n)) == RateOf(n)
  {
    ModUnique(n + 128, Pow2(8), 0, n + 128);
    assert [[Val(Int(n))]][1..] == [];
    assert NormList(Simple("sens:rate", BYTE), [Val(Int(n))]) == [Val(Int(n))];
  }

  /** And it arrives as it is. */
  lemma RateTreeInRange(n: int)
    requires -128 <= n <= 127
    ensures Norm(StatusControl(), RateTree(n)) == RateTree(n)
  {
    RateInRange("sens:AmbientLight", n);
    var rate := RateConfig("sens:AmbientLight");
    assert NormList(rate, [RateOf(n)]) == [RateOf(n)];
    var config := [[], [], [], [RateOf(n)], [], []];
    assert config[1..] == [[], [], [RateOf(n)], [], []];
    assert config[1..][1..] == [[], [RateOf(n)], [], []];
    assert config[1..][1..][1..] == [[RateOf(n)], [], []];
    assert config[1..][1..][1..][1..] == [[], []];
    assert config[1..][1..][1..][1..][1..] == [[]];
    assert Norm(SensorConfig("sens:SensorConfig"), Struct(config)) == Struct(config);
    assert NormList(SensorConfig("sens:SensorConfig"), [Struct(config)]) == [Struct(config)];
    var slots := [[Struct(config)], []];
    assert slots[1..] == [[]] && slots[1..][1..] == [];
  }
}
