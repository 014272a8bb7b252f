/** The schemas of the three messages say what module Values says of them in plain terms: which trees there are,
    what is written, what is printed, and what arrives. */
module Agreement {
  import opened Options
  import opened Sequences
  import opened Bits
  import opened Wire
  import opened Events
  import opened Loss
  import opened Values
  import Sensors
  import Messages

  // ---------------------------------------------------------------- one schema, seen from all sides

  /** A tree is in range exactly if `ok`; its code is `bits`, its print is `text`; it arrives as `norm`
      exactly if it is in range. */
  datatype Facts<N> = Facts(ok: bool, bits: seq<bool>, text: seq<Event>, norm: N)

  ghost predicate ElementSays(s: Schema, d: Dom, f: Facts<Dom>) {
    && Conforms(s, d) && Small(s, d)
    && (InRange(RoundedDown, s, d) <==> f.ok) && Encode(s, d) == f.bits && Render(s, d) == f.text
    && (f.ok <==> Norm(s, d) == f.norm)
  }

  ghost predicate SlotSays(opt: bool, sub: Schema, list: seq<Dom>, f: Facts<seq<Dom>>) {
    && ConformsList(sub, list) && SmallList(sub, list) && |list| <= 1 && (opt || |list| == 1)
    && (InRangeList(RoundedDown, sub, list) <==> f.ok) && EncodeSlot(opt, sub, list) == f.bits && RenderList(sub, list) == f.text
    && (f.ok <==> NormList(sub, list) == f.norm)
  }

  ghost predicate FieldsSay(fs: Fields, slots: seq<seq<Dom>>, f: Facts<seq<seq<Dom>>>) {
    && ConformsFields(fs, slots) && SmallFields(fs, slots)
    && (InRangeFields(RoundedDown, fs, slots) <==> f.ok) && EncodeFields(fs, slots) == f.bits && RenderFields(fs, slots) == f.text
    && (f.ok <==> NormFields(fs, slots) == f.norm)
  }

  lemma OneNorm(sub: Schema, d: Dom, n: Dom)
    ensures NormList(sub, [d]) == [n] <==> Norm(sub, d) == n
  {
    assert [d][1..] == [];
    assert NormList(sub, [d]) == [Norm(sub, d)];
    assert [Norm(sub, d)][0] == Norm(sub, d) && [n][0] == n;
  }

  lemma SameFront<T>(a: T, b: seq<T>, c: T, d: seq<T>)
    ensures [a] + b == [c] + d <==> a == c && b == d
  {
    if [a] + b == [c] + d {
      assert ([a] + b)[0] == a && ([c] + d)[0] == c;
      assert ([a] + b)[1..] == b && ([c] + d)[1..] == d;
    }
  }

  lemma Mandatory(sub: Schema, d: Dom, f: Facts<Dom>) returns (g: Facts<seq<Dom>>)
    requires ElementSays(sub, d, f)
    ensures g == Facts(f.ok, f.bits, f.text, [f.norm]) && SlotSays(false, sub, [d], g)
  {
    g := Facts(f.ok, f.bits, f.text, [f.norm]);
    assert [d][1..] == [];
    OneNorm(sub, d, f.norm);
    RenderListCons(sub, d, []);
  }

  /** An element that may be absent, with everything about it as functions of its value. */
  lemma Optional<T>(sub: Schema, o: Option<T>, tree: T -> Dom, range: T -> bool, bits: T -> seq<bool>, text: T -> seq<Event>,
                    arrives: T -> T) returns (g: Facts<seq<Dom>>)
    requires o.Some? ==>
               ElementSays(sub, tree(o.value), Facts(range(o.value), bits(o.value), text(o.value), tree(arrives(o.value))))
    ensures g == Facts(Within(o, range), Marked(o, bits), IfPresent(o, text), Listed(Mapped(o, arrives), tree))
    ensures SlotSays(true, sub, Listed(o, tree), g)
  {
    g := Facts(Within(o, range), Marked(o, bits), IfPresent(o, text), Listed(Mapped(o, arrives), tree));
    if o.Some? {
      var d := tree(o.value);
      assert [d][1..] == [];
      RenderListCons(sub, d, []);
      assert EncodeList(sub, [d]) == [true] + bits(o.value) + EncodeList(sub, []);
      OneNorm(sub, d, tree(arrives(o.value)));
    }
  }

  /** One field in front of others. */
  lemma Field1(opt: bool, sub: Schema, list: seq<Dom>, f: Facts<seq<Dom>>,
               rest: Fields, slots: seq<seq<Dom>>, g: Facts<seq<seq<Dom>>>) returns (h: Facts<seq<seq<Dom>>>)
    requires SlotSays(opt, sub, list, f) && FieldsSay(rest, slots, g)
    ensures h == Facts(f.ok && g.ok, f.bits + g.bits, f.text + g.text, [f.norm] + g.norm)
    ensures FieldsSay(Field(opt, sub, rest), [list] + slots, h)
  {
    h := Facts(f.ok && g.ok, f.bits + g.bits, f.text + g.text, [f.norm] + g.norm);
    FieldsCons(opt, sub, rest, list, slots);
    SameFront(NormList(sub, list), NormFields(rest, slots), f.norm, g.norm);
    assert ([list] + slots)[1..] == slots;
  }

  lemma NoField() returns (h: Facts<seq<seq<Dom>>>)
    ensures h == Facts(true, [], [], []) && FieldsSay(Done, [], h)
  {
    h := Facts(true, [], [], []);
  }

  lemma Structure(tag: string, fs: Fields, slots: seq<seq<Dom>>, f: Facts<seq<seq<Dom>>>) returns (g: Facts<Dom>)
    requires FieldsSay(fs, slots, f)
    ensures g == Facts(f.ok, f.bits, Around(tag, f.text), Struct(f.norm)) && ElementSays(Complex(tag, fs), Struct(slots), g)
  {
    g := Facts(f.ok, f.bits, Around(tag, f.text), Struct(f.norm));
  }

  lemma Fields1(a: Schema, opt1: bool, l: seq<Dom>, f: Facts<seq<Dom>>) returns (h: Facts<seq<seq<Dom>>>)
    requires SlotSays(opt1, a, l, f)
    ensures h == Facts(f.ok, f.bits, f.text, [f.norm]) && FieldsSay(Field(opt1, a, Done), [l], h)
  {
    var none := NoField();
    h := Field1(opt1, a, l, f, Done, [], none);
    assert [l] + [] == [l];
    assert f.bits + [] == f.bits && f.text + [] == f.text && [f.norm] + [] == [f.norm];
  }

  lemma Fields2(o1: bool, a: Schema, l1: seq<Dom>, f1: Facts<seq<Dom>>, o2: bool, b: Schema, l2: seq<Dom>, f2: Facts<seq<Dom>>)
      returns (h: Facts<seq<seq<Dom>>>)
    requires SlotSays(o1, a, l1, f1) && SlotSays(o2, b, l2, f2)
    ensures h == Facts(f1.ok && f2.ok, f1.bits + f2.bits, f1.text + f2.text, [f1.norm, f2.norm])
    ensures FieldsSay(Field(o1, a, Field(o2, b, Done)), [l1, l2], h)
  {
    h := Fields1(b, o2, l2, f2);
    h := Field1(o1, a, l1, f1, Field(o2, b, Done), [l2], h);
    assert [l1] + [l2] == [l1, l2] && [f1.norm] + [f2.norm] == [f1.norm, f2.norm];
  }

  lemma Fields3(o1: bool, a: Schema, l1: seq<Dom>, f1: Facts<seq<Dom>>, o2: bool, b: Schema, l2: seq<Dom>, f2: Facts<seq<Dom>>,
                o3: bool, c: Schema, l3: seq<Dom>, f3: Facts<seq<Dom>>)
      returns (h: Facts<seq<seq<Dom>>>)
    requires SlotSays(o1, a, l1, f1) && SlotSays(o2, b, l2, f2) && SlotSays(o3, c, l3, f3)
    ensures h == Facts(f1.ok && f2.ok && f3.ok, f1.bits + f2.bits + f3.bits, f1.text + f2.text + f3.text,
                       [f1.norm, f2.norm, f3.norm])
    ensures FieldsSay(Field(o1, a, Field(o2, b, Field(o3, c, Done))), [l1, l2, l3], h)
  {
    h := Fields2(o2, b, l2, f2, o3, c, l3, f3);
    h := Field1(o1, a, l1, f1, Field(o2, b, Field(o3, c, Done)), [l2, l3], h);
    Assoc(f1.bits, f2.bits, f3.bits);
    Assoc(f1.text, f2.text, f3.text);
    assert [l1] + [l2, l3] == [l1, l2, l3] && [f1.norm] + [f2.norm, f3.norm] == [f1.norm, f2.norm, f3.norm];
  }

  /** Three fields in front of others. */
  lemma ThreeMore(o1: bool, a: Schema, l1: seq<Dom>, f1: Facts<seq<Dom>>, o2: bool, b: Schema, l2: seq<Dom>, f2: Facts<seq<Dom>>,
                  o3: bool, c: Schema, l3: seq<Dom>, f3: Facts<seq<Dom>>, rest: Fields, slots: seq<seq<Dom>>, g: Facts<seq<seq<Dom>>>)
      returns (h: Facts<seq<seq<Dom>>>)
    requires SlotSays(o1, a, l1, f1) && SlotSays(o2, b, l2, f2) && SlotSays(o3, c, l3, f3) && FieldsSay(rest, slots, g)
    ensures h == Facts(f1.ok && f2.ok && f3.ok && g.ok, f1.bits + f2.bits + f3.bits + g.bits, f1.text + f2.text + f3.text + g.text,
                       [f1.norm, f2.norm, f3.norm] + g.norm)
    ensures FieldsSay(Field(o1, a, Field(o2, b, Field(o3, c, rest))), [l1, l2, l3] + slots, h)
  {
    h := Field1(o3, c, l3, f3, rest, slots, g);
    h := Field1(o2, b, l2, f2, Field(o3, c, rest), [l3] + slots, h);
    h := Field1(o1, a, l1, f1, Field(o2, b, Field(o3, c, rest)), [l2] + ([l3] + slots), h);
    Four(f1.bits, f2.bits, f3.bits, g.bits);
    Four(f1.text, f2.text, f3.text, g.text);
    assert [l1] + ([l2] + ([l3] + slots)) == [l1, l2, l3] + slots;
    assert [f1.norm] + ([f2.norm] + ([f3.norm] + g.norm)) == [f1.norm, f2.norm, f3.norm] + g.norm;
  }

  lemma Fields4(o1: bool, a: Schema, l1: seq<Dom>, f1: Facts<seq<Dom>>, o2: bool, b: Schema, l2: seq<Dom>, f2: Facts<seq<Dom>>,
                o3: bool, c: Schema, l3: seq<Dom>, f3: Facts<seq<Dom>>, o4: bool, d: Schema, l4: seq<Dom>, f4: Facts<seq<Dom>>)
      returns (h: Facts<seq<seq<Dom>>>)
    requires SlotSays(o1, a, l1, f1) && SlotSays(o2, b, l2, f2) && SlotSays(o3, c, l3, f3) && SlotSays(o4, d, l4, f4)
    ensures h == Facts(f1.ok && f2.ok && f3.ok && f4.ok, f1.bits + f2.bits + f3.bits + f4.bits,
                       f1.text + f2.text + f3.text + f4.text, [f1.norm, f2.norm, f3.norm, f4.norm])
    ensures FieldsSay(Field(o1, a, Field(o2, b, Field(o3, c, Field(o4, d, Done)))), [l1, l2, l3, l4], h)
  {
    h := Fields1(d, o4, l4, f4);
    h := ThreeMore(o1, a, l1, f1, o2, b, l2, f2, o3, c, l3, f3, Field(o4, d, Done), [l4], h);
    assert [l1, l2, l3] + [l4] == [l1, l2, l3, l4];
    assert [f1.norm, f2.norm, f3.norm] + [f4.norm] == [f1.norm, f2.norm, f3.norm, f4.norm];
  }

  lemma Fields5(o1: bool, a: Schema, l1: seq<Dom>, f1: Facts<seq<Dom>>, o2: bool, b: Schema, l2: seq<Dom>, f2: Facts<seq<Dom>>,
                o3: bool, c: Schema, l3: seq<Dom>, f3: Facts<seq<Dom>>, o4: bool, d: Schema, l4: seq<Dom>, f4: Facts<seq<Dom>>,
                o5: bool, e: Schema, l5: seq<Dom>, f5: Facts<seq<Dom>>)
      returns (h: Facts<seq<seq<Dom>>>)
    requires SlotSays(o1, a, l1, f1) && SlotSays(o2, b, l2, f2) && SlotSays(o3, c, l3, f3) && SlotSays(o4, d, l4, f4)
    requires SlotSays(o5, e, l5, f5)
    ensures h == Facts(f1.ok && f2.ok && f3.ok && f4.ok && f5.ok, f1.bits + f2.bits + f3.bits + f4.bits + f5.bits,
                       f1.text + f2.text + f3.text + f4.text + f5.text, [f1.norm, f2.norm, f3.norm, f4.norm, f5.norm])
    ensures FieldsSay(Field(o1, a, Field(o2, b, Field(o3, c, Field(o4, d, Field(o5, e, Done))))), [l1, l2, l3, l4, l5], h)
  {
    h := Fields2(o4, d, l4, f4, o5, e, l5, f5);
    h := ThreeMore(o1, a, l1, f1, o2, b, l2, f2, o3, c, l3, f3, Field(o4, d, Field(o5, e, Done)), [l4, l5], h);
    Assoc(f1.bits + f2.bits + f3.bits, f4.bits, f5.bits);
    Assoc(f1.text + f2.text + f3.text, f4.text, f5.text);
    assert [l1, l2, l3] + [l4, l5] == [l1, l2, l3, l4, l5];
    assert [f1.norm, f2.norm, f3.norm] + [f4.norm, f5.norm] == [f1.norm, f2.norm, f3.norm, f4.norm, f5.norm];
  }

  lemma Four<T>(a: seq<T>, b: seq<T>, c: seq<T>, d: seq<T>)
    ensures a + (b + (c + d)) == a + b + c + d
  {
    Assoc(a, b, c + d);
    Assoc(a + b, c, d);
  }

  // ---------------------------------------------------------------- numbers and times

  /** `code` is the number's distance from the least one, `most` the greatest one. */
  lemma NumberSays(tag: string, signed: bool, cbits: nat, offset: int, width: nat, n: int, code: int, most: int)
    requires width <= cbits && code == n - offset && most + 1 == offset + Pow2(width)
    ensures ElementSays(Simple(tag, IntLeaf(signed, cbits, offset, width)), Number(n),
                        Facts(offset <= n <= most, ToBits(code, width), Tagged(tag, Int(n)), Number(n)))
  {
    ToBitsOfMod(n - offset, cbits, width);
    ModFixed(n - offset, Pow2(width));
  }

  lemma OneUnsignedByte(tag: string, n: int)
    ensures ElementSays(Simple(tag, Sensors.UNSIGNED_BYTE), Number(n), Facts(0 <= n <= 255, ToBits(n, 8), Tagged(tag, Int(n)), Number(n)))
  {
    Powers();
    NumberSays(tag, false, 8, 0, 8, n, n, 255);
  }

  lemma UnsignedByteSays(tag: string, n: int) returns (f: Facts<seq<Dom>>)
    ensures f == Facts(0 <= n <= 255, ToBits(n, 8), Tagged(tag, Int(n)), [Number(n)])
    ensures SlotSays(false, Simple(tag, Sensors.UNSIGNED_BYTE), [Number(n)], f)
  {
    OneUnsignedByte(tag, n);
    f := Mandatory(Simple(tag, Sensors.UNSIGNED_BYTE), Number(n), Facts(0 <= n <= 255, ToBits(n, 8), Tagged(tag, Int(n)), Number(n)));
  }

  lemma OneUnsignedShort(tag: string, n: int)
    ensures ElementSays(Simple(tag, Sensors.UNSIGNED_SHORT), Number(n), Facts(0 <= n <= 65535, ToBits(n, 16), Tagged(tag, Int(n)), Number(n)))
  {
    Powers();
    NumberSays(tag, false, 16, 0, 16, n, n, 65535);
  }

  lemma UnsignedShortSays(tag: string, n: int) returns (f: Facts<seq<Dom>>)
    ensures f == Facts(0 <= n <= 65535, ToBits(n, 16), Tagged(tag, Int(n)), [Number(n)])
    ensures SlotSays(false, Simple(tag, Sensors.UNSIGNED_SHORT), [Number(n)], f)
  {
    OneUnsignedShort(tag, n);
    f := Mandatory(Simple(tag, Sensors.UNSIGNED_SHORT), Number(n), Facts(0 <= n <= 65535, ToBits(n, 16), Tagged(tag, Int(n)), Number(n)));
  }

  lemma OneShort(tag: string, n: int)
    ensures ElementSays(Simple(tag, Sensors.SHORT), Number(n), Facts(-32768 <= n <= 32767, ShortBits(n), Tagged(tag, Int(n)), Number(n)))
  {
    Powers();
    NumberSays(tag, true, 16, -32768, 16, n, n + 32768, 32767);
  }

  lemma ShortSays(tag: string, n: int) returns (f: Facts<seq<Dom>>)
    ensures f == Facts(-32768 <= n <= 32767, ShortBits(n), Tagged(tag, Int(n)), [Number(n)])
    ensures SlotSays(false, Simple(tag, Sensors.SHORT), [Number(n)], f)
  {
    OneShort(tag, n);
    f := Mandatory(Simple(tag, Sensors.SHORT), Number(n), Facts(-32768 <= n <= 32767, ShortBits(n), Tagged(tag, Int(n)), Number(n)));
  }

  lemma OneCentigrade(tag: string, n: int)
    ensures ElementSays(Simple(tag, Sensors.TEMPERATURE), Number(n), Facts(-20 <= n <= 107, CentigradeBits(n), Tagged(tag, Int(n)), Number(n)))
  {
    Powers();
    NumberSays(tag, true, 8, -20, 7, n, n + 20, 107);
  }

  lemma CentigradesSay(tag: string, n: int) returns (f: Facts<seq<Dom>>)
    ensures f == Facts(-20 <= n <= 107, CentigradeBits(n), Tagged(tag, Int(n)), [Number(n)])
    ensures SlotSays(false, Simple(tag, Sensors.TEMPERATURE), [Number(n)], f)
  {
    OneCentigrade(tag, n);
    f := Mandatory(Simple(tag, Sensors.TEMPERATURE), Number(n), Facts(-20 <= n <= 107, CentigradeBits(n), Tagged(tag, Int(n)), Number(n)));
  }

  lemma SignedByteSays(tag: string, n: int)
    ensures ElementSays(Simple(tag, Sensors.BYTE), Number(n), Facts(SignedByte(n), SignedByteBits(n), Tagged(tag, Int(n)), Number(n)))
  {
    Powers();
    NumberSays(tag, true, 8, -128, 8, n, n + 128, 127);
  }

  lemma StampSays(tag: string, t: Stamp)
    ensures ElementSays(Simple(tag, Sensors.TIME), StampTree(t),
                        Facts(StampInRange(t), StampBits(t), StampText(tag, t), StampTree(Rounded(t))))
  {
    Messages.Windows(0, t.sec, t.frac);
    ToBitsOfMod(t.frac / 16, 16, 12);
    Powers();
    ModFixed(t.sec, 0x1_0000_0000);
    ModFixed(t.frac / 16, 4096);
  }

  lemma Powers()
    ensures Pow2(7) == 128 && Pow2(8) == 256 && Pow2(12) == 4096 && Pow2(16) == 65536 && Pow2(32) == 0x1_0000_0000
  {
    assert Pow2(4) == 16;
    Pow2Product(4, 3);
    Pow2Product(4, 4);
    Pow2Product(8, 4);
    Pow2Product(8, 8);
    Pow2Product(16, 16);
  }

  function Same<T>(t: T): T {
    t
  }

  lemma SameMapped<T>(o: Option<T>)
    ensures Mapped(o, Same) == o
  {
  }

  lemma IndexSays(index: Option<int>) returns (f: Facts<seq<Dom>>)
    ensures f == Facts(Within(index, SignedByte), Marked(index, SignedByteBits), IfPresent(index, IndexText), Listed(index, Number))
    ensures SlotSays(true, Simple("sens:index", Sensors.BYTE), Listed(index, Number), f)
  {
    if index.Some? {
      SignedByteSays("sens:index", index.value);
    }
    f := Optional(Simple("sens:index", Sensors.BYTE), index, Number, SignedByte, SignedByteBits, IndexText, Same);
    SameMapped(index);
  }

  // ---------------------------------------------------------------- the parts of a sample

  lemma AccellerationSays(a: Accelleration)
    ensures ElementSays(Sensors.Accelleration(), AccellerationTree(a),
                        Facts(AccellerationInRange(a), AccellerationBits(a), AccellerationText(a), AccellerationTree(a)))
  {
    var x := ShortSays("sens:x", a.x);
    var y := ShortSays("sens:y", a.y);
    var z := ShortSays("sens:z", a.z);
    var i := IndexSays(a.index);
    var h := Fields4(false, Simple("sens:x", Sensors.SHORT), [Number(a.x)], x, false, Simple("sens:y", Sensors.SHORT), [Number(a.y)], y,
                     false, Simple("sens:z", Sensors.SHORT), [Number(a.z)], z,
                     true, Simple("sens:index", Sensors.BYTE), Listed(a.index, Number), i);
    var g := Structure("sens:Accelleration", Sensors.Accelleration().fields, AccellerationTree(a).slots, h);
  }

  /** A structure of one number and an index. */
  lemma NumberAndIndex(tag: string, name: string, leaf: Leaf, n: int, f: Facts<seq<Dom>>, index: Option<int>) returns (g: Facts<Dom>)
    requires SlotSays(false, Simple(name, leaf), [Number(n)], f)
    ensures g == Facts(f.ok && Within(index, SignedByte), f.bits + Marked(index, SignedByteBits),
                       Around(tag, f.text + IfPresent(index, IndexText)), Struct([f.norm, Listed(index, Number)]))
    ensures ElementSays(Complex(tag, Field(false, Simple(name, leaf), Sensors.Index())), Struct([[Number(n)], Listed(index, Number)]), g)
  {
    var i := IndexSays(index);
    var h := Fields2(false, Simple(name, leaf), [Number(n)], f, true, Simple("sens:index", Sensors.BYTE), Listed(index, Number), i);
    g := Structure(tag, Field(false, Simple(name, leaf), Sensors.Index()), [[Number(n)], Listed(index, Number)], h);
  }

  lemma AudioSays(a: Audio)
    ensures ElementSays(Sensors.Audio(), AudioTree(a), Facts(AudioInRange(a), AudioBits(a), AudioText(a), AudioTree(a)))
  {
    var v := UnsignedByteSays("sens:volume", a.volume);
    var g := NumberAndIndex("sens:Audio", "sens:volume", Sensors.UNSIGNED_BYTE, a.volume, v, a.index);
  }

  lemma LightSays(l: Light)
    ensures ElementSays(Sensors.Light(), LightTree(l), Facts(LightInRange(l), LightBits(l), LightText(l), LightTree(l)))
  {
    var d := UnsignedShortSays("sens:daylight", l.daylight);
    var r := UnsignedShortSays("sens:infrared", l.infrared);
    var i := IndexSays(l.index);
    var f := Fields3(false, Simple("sens:daylight", Sensors.UNSIGNED_SHORT), [Number(l.daylight)], d,
                     false, Simple("sens:infrared", Sensors.UNSIGNED_SHORT), [Number(l.infrared)], r,
                     true, Simple("sens:index", Sensors.BYTE), Listed(l.index, Number), i);
    var g := Structure("sens:Light", Sensors.Light().fields, [[Number(l.daylight)], [Number(l.infrared)], Listed(l.index, Number)], f);
  }

  lemma ForceSays(a: Force)
    ensures ElementSays(Sensors.Force(), ForceTree(a), Facts(ForceInRange(a), ForceBits(a), ForceText(a), ForceTree(a)))
  {
    var v := UnsignedByteSays("sens:value", a.value);
    var g := NumberAndIndex("sens:Force", "sens:value", Sensors.UNSIGNED_BYTE, a.value, v, a.index);
  }

  lemma TemperatureSays(a: Temperature)
    ensures ElementSays(Sensors.Temperature(), TemperatureTree(a),
                        Facts(TemperatureInRange(a), TemperatureBits(a), TemperatureText(a), TemperatureTree(a)))
  {
    var v := CentigradesSay("sens:value", a.value);
    var g := NumberAndIndex("sens:Temperature", "sens:value", Sensors.TEMPERATURE, a.value, v, a.index);
  }

  /** Six fields: three and three more. */
  lemma Six<T>(a: seq<T>, b: seq<T>, c: seq<T>, d: seq<T>, e: seq<T>, f: seq<T>)
    ensures a + b + c + (d + e + f) == a + b + c + d + e + f
  {
    Assoc(a + b + c, d + e, f);
    Assoc(a + b + c, d, e);
  }

  /** A structure of six optional elements. */
  lemma SixFields(a: Schema, l1: seq<Dom>, f1: Facts<seq<Dom>>, b: Schema, l2: seq<Dom>, f2: Facts<seq<Dom>>,
                  c: Schema, l3: seq<Dom>, f3: Facts<seq<Dom>>, d: Schema, l4: seq<Dom>, f4: Facts<seq<Dom>>,
                  e: Schema, l5: seq<Dom>, f5: Facts<seq<Dom>>, f: Schema, l6: seq<Dom>, f6: Facts<seq<Dom>>)
      returns (h: Facts<seq<seq<Dom>>>)
    requires SlotSays(true, a, l1, f1) && SlotSays(true, b, l2, f2) && SlotSays(true, c, l3, f3)
    requires SlotSays(true, d, l4, f4) && SlotSays(true, e, l5, f5) && SlotSays(true, f, l6, f6)
    ensures h == Facts(f1.ok && f2.ok && f3.ok && f4.ok && f5.ok && f6.ok,
                       f1.bits + f2.bits + f3.bits + f4.bits + f5.bits + f6.bits,
                       f1.text + f2.text + f3.text + f4.text + f5.text + f6.text,
                       [f1.norm, f2.norm, f3.norm, f4.norm, f5.norm, f6.norm])
    ensures FieldsSay(Field(true, a, Field(true, b, Field(true, c, Field(true, d, Field(true, e, Field(true, f, Done)))))),
                      [l1, l2, l3, l4, l5, l6], h)
  {
    h := Fields3(true, d, l4, f4, true, e, l5, f5, true, f, l6, f6);
    h := ThreeMore(true, a, l1, f1, true, b, l2, f2, true, c, l3, f3,
                   Field(true, d, Field(true, e, Field(true, f, Done))), [l4, l5, l6], h);
    Six(f1.bits, f2.bits, f3.bits, f4.bits, f5.bits, f6.bits);
    Six(f1.text, f2.text, f3.text, f4.text, f5.text, f6.text);
    assert [l1, l2, l3] + [l4, l5, l6] == [l1, l2, l3, l4, l5, l6];
    assert [f1.norm, f2.norm, f3.norm] + [f4.norm, f5.norm, f6.norm] == [f1.norm, f2.norm, f3.norm, f4.norm, f5.norm, f6.norm];
  }

  lemma TimeStampSays(o: Option<Stamp>) returns (f: Facts<seq<Dom>>)
    ensures f == Facts(Within(o, StampInRange), Marked(o, StampBits), IfPresent(o, TimeStampText), Listed(Mapped(o, Rounded), StampTree))
    ensures SlotSays(true, Simple("sens:TimeStamp", Sensors.TIME), Listed(o, StampTree), f)
  {
    if o.Some? {
      StampSays("sens:TimeStamp", o.value);
    }
    f := Optional(Simple("sens:TimeStamp", Sensors.TIME), o, StampTree, StampInRange, StampBits, TimeStampText, Rounded);
  }

  lemma SampleTailSays(s: Sample) returns (f4: Facts<seq<Dom>>, f5: Facts<seq<Dom>>, f6: Facts<seq<Dom>>)
    ensures f4 == Facts(Within(s.light, LightInRange), Marked(s.light, LightBits), IfPresent(s.light, LightText), Listed(s.light, LightTree))
    ensures f5 == Facts(Within(s.force, ForceInRange), Marked(s.force, ForceBits), IfPresent(s.force, ForceText), Listed(s.force, ForceTree))
    ensures f6 == Facts(Within(s.temperature, TemperatureInRange), Marked(s.temperature, TemperatureBits),
                        IfPresent(s.temperature, TemperatureText), Listed(s.temperature, TemperatureTree))
    ensures SlotSays(true, Sensors.Light(), Listed(s.light, LightTree), f4)
    ensures SlotSays(true, Sensors.Force(), Listed(s.force, ForceTree), f5)
    ensures SlotSays(true, Sensors.Temperature(), Listed(s.temperature, TemperatureTree), f6)
  {
    if s.light.Some? {
      LightSays(s.light.value);
    }
    if s.force.Some? {
      ForceSays(s.force.value);
    }
    if s.temperature.Some? {
      TemperatureSays(s.temperature.value);
    }
    f4 := Optional(Sensors.Light(), s.light, LightTree, LightInRange, LightBits, LightText, Same);
    f5 := Optional(Sensors.Force(), s.force, ForceTree, ForceInRange, ForceBits, ForceText, Same);
    f6 := Optional(Sensors.Temperature(), s.temperature, TemperatureTree, TemperatureInRange, TemperatureBits, TemperatureText, Same);
    SameMapped(s.light);
    SameMapped(s.force);
    SameMapped(s.temperature);
  }

  lemma SampleHeadSays(s: Sample) returns (f2: Facts<seq<Dom>>, f3: Facts<seq<Dom>>)
    ensures f2 == Facts(Within(s.accelleration, AccellerationInRange), Marked(s.accelleration, AccellerationBits),
                        IfPresent(s.accelleration, AccellerationText), Listed(s.accelleration, AccellerationTree))
    ensures f3 == Facts(Within(s.audio, AudioInRange), Marked(s.audio, AudioBits), IfPresent(s.audio, AudioText), Listed(s.audio, AudioTree))
    ensures SlotSays(true, Sensors.Accelleration(), Listed(s.accelleration, AccellerationTree), f2)
    ensures SlotSays(true, Sensors.Audio(), Listed(s.audio, AudioTree), f3)
  {
    if s.accelleration.Some? {
      AccellerationSays(s.accelleration.value);
    }
    if s.audio.Some? {
      AudioSays(s.audio.value);
    }
    f2 := Optional(Sensors.Accelleration(), s.accelleration, AccellerationTree, AccellerationInRange, AccellerationBits, AccellerationText, Same);
    f3 := Optional(Sensors.Audio(), s.audio, AudioTree, AudioInRange, AudioBits, AudioText, Same);
    SameMapped(s.accelleration);
    SameMapped(s.audio);
  }

  // ---------------------------------------------------------------- the three messages

  /** A sample: its bits, its print, its ranges, and what arrives of it. */
  lemma SampleSays(s: Sample)
    ensures ElementSays(Sensors.Sample(), SampleTree(s),
                        Facts(SampleInRange(s), SampleBits(s), SampleText(s), SampleTree(RoundedSample(s))))
  {
    var f1 := TimeStampSays(s.timeStamp);
    var f2, f3 := SampleHeadSays(s);
    var f4, f5, f6 := SampleTailSays(s);
    var h := SixFields(Simple("sens:TimeStamp", Sensors.TIME), Listed(s.timeStamp, StampTree), f1,
                       Sensors.Accelleration(), Listed(s.accelleration, AccellerationTree), f2,
                       Sensors.Audio(), Listed(s.audio, AudioTree), f3, Sensors.Light(), Listed(s.light, LightTree), f4,
                       Sensors.Force(), Listed(s.force, ForceTree), f5, Sensors.Temperature(), Listed(s.temperature, TemperatureTree), f6);
    var g := Structure("sens:Sample", Sensors.Sample().fields, SampleTree(s).slots, h);
  }

  lemma RateSays(tag: string, n: int)
    ensures ElementSays(Sensors.RateConfig(tag), RateTree(n), Facts(SignedByte(n), SignedByteBits(n), RateText(tag, n), RateTree(n)))
  {
    var rate := Simple("sens:rate", Sensors.BYTE);
    SignedByteSays("sens:rate", n);
    var f := Mandatory(rate, Number(n), Facts(SignedByte(n), SignedByteBits(n), Tagged("sens:rate", Int(n)), Number(n)));
    var h := Fields1(rate, false, [Number(n)], f);
    var g := Structure(tag, Field(false, rate, Done), [[Number(n)]], h);
  }

  lemma OptionalRate(tag: string, o: Option<int>, text: int -> seq<Event>) returns (f: Facts<seq<Dom>>)
    requires forall n :: text(n) == RateText(tag, n)
    ensures f == Facts(Within(o, SignedByte), Marked(o, SignedByteBits), IfPresent(o, text), Listed(o, RateTree))
    ensures SlotSays(true, Sensors.RateConfig(tag), Listed(o, RateTree), f)
  {
    if o.Some? {
      RateSays(tag, o.value);
    }
    f := Optional(Sensors.RateConfig(tag), o, RateTree, SignedByte, SignedByteBits, text, Same);
    SameMapped(o);
  }

  lemma RatesSay(tag: string, r: Rates)
    ensures ElementSays(Sensors.SensorConfig(tag), RatesTree(r), Facts(RatesInRange(r), RatesBits(r), RatesText(tag, r), RatesTree(r)))
  {
    var f1 := OptionalRate("sens:Acceleration", r.acceleration, AccelerationRateText);
    var f2 := OptionalRate("sens:Audio", r.audio, AudioRateText);
    var f3 := OptionalRate("sens:Light", r.light, LightRateText);
    var f4 := OptionalRate("sens:AmbientLight", r.ambientLight, AmbientLightRateText);
    var f5 := OptionalRate("sens:Force", r.force, ForceRateText);
    var f6 := OptionalRate("sens:Temperature", r.temperature, TemperatureRateText);
    var h := SixFields(Sensors.RateConfig("sens:Acceleration"), Listed(r.acceleration, RateTree), f1,
                       Sensors.RateConfig("sens:Audio"), Listed(r.audio, RateTree), f2,
                       Sensors.RateConfig("sens:Light"), Listed(r.light, RateTree), f3,
                       Sensors.RateConfig("sens:AmbientLight"), Listed(r.ambientLight, RateTree), f4,
                       Sensors.RateConfig("sens:Force"), Listed(r.force, RateTree), f5,
                       Sensors.RateConfig("sens:Temperature"), Listed(r.temperature, RateTree), f6);
    var g := Structure(tag, Sensors.SensorConfig(tag).fields, RatesTree(r).slots, h);
  }

  lemma MandatoryRates(tag: string, r: Rates) returns (f: Facts<seq<Dom>>)
    ensures f == Facts(RatesInRange(r), RatesBits(r), RatesText(tag, r), [RatesTree(r)])
    ensures SlotSays(false, Sensors.SensorConfig(tag), [RatesTree(r)], f)
  {
    RatesSay(tag, r);
    f := Mandatory(Sensors.SensorConfig(tag), RatesTree(r), Facts(RatesInRange(r), RatesBits(r), RatesText(tag, r), RatesTree(r)));
  }

  lemma MandatoryStamp(tag: string, t: Stamp) returns (f: Facts<seq<Dom>>)
    ensures f == Facts(StampInRange(t), StampBits(t), StampText(tag, t), [StampTree(Rounded(t))])
    ensures SlotSays(false, Simple(tag, Sensors.TIME), [StampTree(t)], f)
  {
    StampSays(tag, t);
    f := Mandatory(Simple(tag, Sensors.TIME), StampTree(t), Facts(StampInRange(t), StampBits(t), StampText(tag, t), StampTree(Rounded(t))));
  }

  lemma StatusSays(s: Status)
    ensures ElementSays(Sensors.Status(), StatusTree(s),
                        Facts(StatusInRange(s), StatusBits(s), StatusText(s), StatusTree(RoundedStatus(s))))
  {
    var f1 := MandatoryRates("sens:SensorConfig", s.sensorConfig);
    var f2 := MandatoryRates("sens:AllSensorConfig", s.allSensorConfig);
    var f3 := UnsignedShortSays("sens:BatteryVoltage", s.batteryVoltage);
    var f4 := MandatoryStamp("sens:CurrentTime", s.currentTime);
    var f5 := MandatoryStamp("sens:UpTime", s.upTime);
    var h := Fields5(false, Sensors.SensorConfig("sens:SensorConfig"), [RatesTree(s.sensorConfig)], f1,
                     false, Sensors.SensorConfig("sens:AllSensorConfig"), [RatesTree(s.allSensorConfig)], f2,
                     false, Simple("sens:BatteryVoltage", Sensors.UNSIGNED_SHORT), [Number(s.batteryVoltage)], f3,
                     false, Simple("sens:CurrentTime", Sensors.TIME), [StampTree(s.currentTime)], f4,
                     false, Simple("sens:UpTime", Sensors.TIME), [StampTree(s.upTime)], f5);
    var g := Structure("sens:Status", Sensors.Status().fields, StatusTree(s).slots, h);
  }

  lemma ControlSays(c: Control)
    ensures ElementSays(Sensors.StatusControl(), ControlTree(c),
                        Facts(ControlInRange(c), ControlBits(c), ControlText(c), ControlTree(RoundedControl(c))))
  {
    var config, time := Sensors.SensorConfig("sens:SensorConfig"), Simple("sens:NewTime", Sensors.TIME);
    if c.sensorConfig.Some? {
      RatesSay("sens:SensorConfig", c.sensorConfig.value);
    }
    if c.newTime.Some? {
      StampSays("sens:NewTime", c.newTime.value);
    }
    var f1 := Optional(config, c.sensorConfig, RatesTree, RatesInRange, RatesBits, SensorConfigText, Same);
    SameMapped(c.sensorConfig);
    var f2 := Optional(time, c.newTime, StampTree, StampInRange, StampBits, NewTimeText, Rounded);
    var h := Fields2(true, config, Listed(c.sensorConfig, RatesTree), f1, true, time, Listed(c.newTime, StampTree), f2);
    var g := Structure("sens:StatusControl", Sensors.StatusControl().fields, ControlTree(c).slots, h);
  }
}
