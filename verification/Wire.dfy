/** The wire format: schemas, trees, and their encoding as bits.
    An optional element is coded as a list: a 1 before each occurrence and a 0 after the last one. */
module Wire {
  import opened Sequences
  import opened Bits

  /** The value of a simple element. `Lost` stands for a time whose text could not be parsed. */
  datatype Value = Int(n: int) | Time(sec: int, frac: int) | Lost

  /** How a simple element is coded. An integer of C type int<cbits> or uint<cbits> is written as its
      distance from `offset` in `width` bits. A time is `secs` bits of seconds and then, from a fraction
      shifted right by four into a uint<cfrac>, `fracs` bits. */
  datatype Leaf =
    | IntLeaf(signed: bool, cbits: nat, offset: int, width: nat)
    | TimeLeaf(secs: nat, cfrac: nat, fracs: nat)

  datatype Schema = Simple(tag: string, leaf: Leaf) | Complex(tag: string, fields: Fields)
  datatype Fields = Done | Field(opt: bool, sub: Schema, rest: Fields)

  /** A tree: slot i of a structure holds the occurrences of its i-th field. */
  datatype Dom = Val(v: Value) | Struct(slots: seq<seq<Dom>>)

  // ---------------------------------------------------------------- simple elements

  function LeafWidth(leaf: Leaf): nat {
    if leaf.IntLeaf? then leaf.width else leaf.secs + leaf.fracs
  }

  /** Conversion to a C integer type of the given signedness and size. */
  function Cast(signed: bool, cbits: nat, v: int): int {
    var u := v % Pow2(cbits);
    if signed && 2 * u >= Pow2(cbits) then u - Pow2(cbits) else u
  }

  /** Every value that can be read fits the C type it is cast to. */
  predicate SoundLeaf(leaf: Leaf) {
    match leaf
    case TimeLeaf(_, cfrac, fracs) => fracs <= cfrac
    case IntLeaf(signed, cbits, offset, width) =>
      && width <= cbits
      && if signed
         then -Pow2(cbits) <= 2 * offset && 2 * (offset + Pow2(width) - 1) < Pow2(cbits)
         else 0 <= offset && offset + Pow2(width) - 1 < Pow2(cbits)
  }

  predicate KindMatches(leaf: Leaf, v: Value) {
    match leaf
    case IntLeaf(_, _, _, _) => v.Int?
    case TimeLeaf(_, _, _) => v.Time?
  }

  function EncodeLeaf(leaf: Leaf, v: Value): seq<bool> {
    match leaf
    case IntLeaf(_, cbits, offset, width) =>
      if v.Int? then ToBits((v.n - offset) % Pow2(cbits), width) else []
    case TimeLeaf(secs, cfrac, fracs) =>
      if v.Time? then ToBits(v.sec, secs) + ToBits((v.frac / 16) % Pow2(cfrac), fracs) else []
  }

  function DecodeLeaf(leaf: Leaf, bits: seq<bool>): Value
    requires |bits| == LeafWidth(leaf)
  {
    match leaf
    case IntLeaf(signed, cbits, offset, _) => Int(Cast(signed, cbits, FromBits(bits) + offset))
    case TimeLeaf(secs, _, _) => Time(FromBits(bits[..secs]), 16 * FromBits(bits[secs..]))
  }

  /** What a value becomes on its way over the wire. */
  function NormLeaf(leaf: Leaf, v: Value): Value {
    match leaf
    case IntLeaf(_, _, offset, width) =>
      if v.Int? then Int(offset + (v.n - offset) % Pow2(width)) else v
    case TimeLeaf(secs, _, fracs) =>
      if v.Time? then Time(v.sec % Pow2(secs), 16 * ((v.frac / 16) % Pow2(fracs))) else v
  }

  function ZeroLeaf(leaf: Leaf): Value {
    if leaf.IntLeaf? then Int(0) else Time(0, 0)
  }

  lemma LeafWidthOfCode(leaf: Leaf, v: Value)
    requires KindMatches(leaf, v)
    ensures |EncodeLeaf(leaf, v)| == LeafWidth(leaf)
  {
  }

  lemma CastInRange(signed: bool, cbits: nat, v: int)
    requires if signed then -Pow2(cbits) <= 2 * v < Pow2(cbits) else 0 <= v < Pow2(cbits)
    ensures Cast(signed, cbits, v) == v
  {
    if v < 0 {
      ModUnique(v, Pow2(cbits), -1, v + Pow2(cbits));
    } else {
      ModUnique(v, Pow2(cbits), 0, v);
    }
  }

  /** Decoding after encoding loses exactly what NormLeaf says. */
  lemma DecodeEncodeLeaf(leaf: Leaf, v: Value)
    requires SoundLeaf(leaf) && KindMatches(leaf, v)
    ensures |EncodeLeaf(leaf, v)| == LeafWidth(leaf)
    ensures DecodeLeaf(leaf, EncodeLeaf(leaf, v)) == NormLeaf(leaf, v)
  {
    match leaf
    case IntLeaf(signed, cbits, offset, width) =>
      ToBitsOfMod(v.n - offset, cbits, width);
      ReadBackMod(v.n - offset, width);
      CastInRange(signed, cbits, offset + (v.n - offset) % Pow2(width));
    case TimeLeaf(secs, cfrac, fracs) =>
      ReadBackMod(v.sec, secs);
      ToBitsOfMod(v.frac / 16, cfrac, fracs);
      ReadBackMod(v.frac / 16, fracs);
      var bits := EncodeLeaf(leaf, v);
      assert bits[..secs] == ToBits(v.sec, secs);
      assert bits[secs..] == ToBits((v.frac / 16) % Pow2(cfrac), fracs);
  }

  lemma EncodeDecodeInt(signed: bool, cbits: nat, offset: int, bits: seq<bool>)
    requires SoundLeaf(IntLeaf(signed, cbits, offset, |bits|))
    ensures var v := Cast(signed, cbits, FromBits(bits) + offset);
            ToBits((v - offset) % Pow2(cbits), |bits|) == bits && offset + (v - offset) % Pow2(|bits|) == v
  {
    WriteBackBits(bits);
    var c := FromBits(bits);
    CastInRange(signed, cbits, c + offset);
    ToBitsOfMod(c, cbits, |bits|);
    ModUnique(c, Pow2(|bits|), 0, c);
  }

  lemma EncodeDecodeSeconds(bits: seq<bool>)
    ensures ToBits(FromBits(bits), |bits|) == bits && FromBits(bits) % Pow2(|bits|) == FromBits(bits)
  {
    WriteBackBits(bits);
    ModUnique(FromBits(bits), Pow2(|bits|), 0, FromBits(bits));
  }

  lemma EncodeDecodeFraction(cfrac: nat, bits: seq<bool>)
    requires |bits| <= cfrac
    ensures var f := 16 * FromBits(bits);
            ToBits((f / 16) % Pow2(cfrac), |bits|) == bits && 16 * ((f / 16) % Pow2(|bits|)) == f
  {
    var f := FromBits(bits);
    WriteBackBits(bits);
    ToBitsOfMod(f, cfrac, |bits|);
    ModUnique(f, Pow2(|bits|), 0, f);
  }

  /** Encoding what was decoded gives back the same bits. */
  lemma EncodeDecodeLeaf(leaf: Leaf, bits: seq<bool>)
    requires SoundLeaf(leaf) && |bits| == LeafWidth(leaf)
    ensures EncodeLeaf(leaf, DecodeLeaf(leaf, bits)) == bits
    ensures KindMatches(leaf, DecodeLeaf(leaf, bits))
    ensures NormLeaf(leaf, DecodeLeaf(leaf, bits)) == DecodeLeaf(leaf, bits)
  {
    match leaf
    case IntLeaf(signed, cbits, offset, width) =>
      EncodeDecodeInt(signed, cbits, offset, bits);
    case TimeLeaf(secs, cfrac, fracs) =>
      EncodeDecodeSeconds(bits[..secs]);
      EncodeDecodeFraction(cfrac, bits[secs..]);
      assert bits[..secs] + bits[secs..] == bits;
  }

  // ---------------------------------------------------------------- trees

  /** The tree has the shape the schema asks for: mandatory fields once, optional ones any number of times. */
  predicate Conforms(s: Schema, d: Dom)
    decreases s, 0
  {
    match s
    case Simple(_, leaf) => d.Val? && KindMatches(leaf, d.v)
    case Complex(_, fields) => d.Struct? && ConformsFields(fields, d.slots)
  }

  predicate ConformsFields(fs: Fields, slots: seq<seq<Dom>>)
    decreases fs, 0
  {
    match fs
    case Done => slots == []
    case Field(opt, sub, rest) =>
      && slots != []
      && (opt || |slots[0]| == 1)
      && ConformsList(sub, slots[0])
      && ConformsFields(rest, slots[1..])
  }

  predicate ConformsList(sub: Schema, list: seq<Dom>)
    decreases sub, |list| + 1
  {
    list == [] || (Conforms(sub, list[0]) && ConformsList(sub, list[1..]))
  }

  /** No field occurs more than once, as the bounded lists of the C structures demand. */
  predicate Small(s: Schema, d: Dom)
    decreases s, 0
  {
    match s
    case Simple(_, _) => true
    case Complex(_, fields) => d.Struct? && SmallFields(fields, d.slots)
  }

  predicate SmallFields(fs: Fields, slots: seq<seq<Dom>>)
    decreases fs, 0
  {
    match fs
    case Done => true
    case Field(_, sub, rest) =>
      && slots != []
      && |slots[0]| <= 1
      && SmallList(sub, slots[0])
      && SmallFields(rest, slots[1..])
  }

  predicate SmallList(sub: Schema, list: seq<Dom>)
    decreases sub, |list| + 1
  {
    list == [] || (Small(sub, list[0]) && SmallList(sub, list[1..]))
  }

  predicate Sound(s: Schema) {
    match s
    case Simple(_, leaf) => SoundLeaf(leaf)
    case Complex(_, fields) => SoundFields(fields)
  }

  predicate SoundFields(fs: Fields) {
    match fs
    case Done => true
    case Field(_, sub, rest) => Sound(sub) && SoundFields(rest)
  }

  // ---------------------------------------------------------------- encoding

  function Encode(s: Schema, d: Dom): seq<bool>
    decreases s, 0
  {
    match s
    case Simple(_, leaf) => if d.Val? then EncodeLeaf(leaf, d.v) else []
    case Complex(_, fields) => if d.Struct? then EncodeFields(fields, d.slots) else []
  }

  /** The continuation bit in front of an occurrence of an optional element. */
  function Mark(opt: bool): seq<bool> {
    if opt then [true] else []
  }

  function EncodeFields(fs: Fields, slots: seq<seq<Dom>>): seq<bool>
    decreases fs, 0
  {
    match fs
    case Done => []
    case Field(opt, sub, rest) =>
      if slots == [] then [] else EncodeSlot(opt, sub, slots[0]) + EncodeFields(rest, slots[1..])
  }

  function EncodeSlot(opt: bool, sub: Schema, list: seq<Dom>): seq<bool>
    decreases sub, |list| + 2
  {
    if opt then EncodeList(sub, list) else if list == [] then [] else Encode(sub, list[0])
  }

  function EncodeList(sub: Schema, list: seq<Dom>): seq<bool>
    decreases sub, |list| + 1
  {
    if list == [] then [false] else [true] + Encode(sub, list[0]) + EncodeList(sub, list[1..])
  }

  // ---------------------------------------------------------------- decoding

  datatype Parsed<+T> = Ok(v: T, rest: seq<bool>) | Eof | Full

  predicate Gives<T(==)>(r: Parsed<T>, v: T, rest: seq<bool>) {
    r.Ok? && r.v == v && r.rest == rest
  }

  /** Reads one element. With `bounded`, an occurrence beyond the capacity of one is `Full`. */
  function Parse(s: Schema, bits: seq<bool>, bounded: bool): (r: Parsed<Dom>)
    ensures r.Ok? ==> |r.rest| <= |bits|
    ensures !bounded ==> !r.Full?
    decreases |bits|, s, 0
  {
    match s
    case Simple(_, leaf) =>
      if |bits| < LeafWidth(leaf) then Eof
      else Ok(Val(DecodeLeaf(leaf, bits[..LeafWidth(leaf)])), bits[LeafWidth(leaf)..])
    case Complex(_, fields) =>
      match ParseFields(fields, bits, bounded)
      case Ok(slots, rest) => Ok(Struct(slots), rest)
      case Eof => Eof
      case Full => Full
  }

  function ParseFields(fs: Fields, bits: seq<bool>, bounded: bool): (r: Parsed<seq<seq<Dom>>>)
    ensures r.Ok? ==> |r.rest| <= |bits|
    ensures !bounded ==> !r.Full?
    decreases |bits|, fs, 0
  {
    match fs
    case Done => Ok([], bits)
    case Field(opt, sub, rest) =>
      match ParseSlot(opt, sub, bits, bounded)
      case Eof => Eof
      case Full => Full
      case Ok(list, bits1) =>
        match ParseFields(rest, bits1, bounded)
        case Eof => Eof
        case Full => Full
        case Ok(slots, bits2) => Ok([list] + slots, bits2)
  }

  function ParseSlot(opt: bool, sub: Schema, bits: seq<bool>, bounded: bool): (r: Parsed<seq<Dom>>)
    ensures r.Ok? ==> |r.rest| <= |bits|
    ensures !bounded ==> !r.Full?
    decreases |bits|, sub, 2
  {
    if opt then ParseList(sub, bits, bounded, 0) else
      match Parse(sub, bits, bounded)
      case Eof => Eof
      case Full => Full
      case Ok(d, rest) => Ok([d], rest)
  }

  /** Reads further occurrences of a list that already holds `have` of them. */
  function ParseList(sub: Schema, bits: seq<bool>, bounded: bool, have: nat): (r: Parsed<seq<Dom>>)
    ensures r.Ok? ==> |r.rest| <= |bits|
    ensures !bounded ==> !r.Full?
    decreases |bits|, sub, 1
  {
    if bits == [] then Eof
    else if !bits[0] then Ok([], bits[1..])
    else if bounded && have >= 1 then Full
    else
      match Parse(sub, bits[1..], bounded)
      case Eof => Eof
      case Full => Full
      case Ok(d, bits1) =>
        match ParseList(sub, bits1, bounded, have + 1)
        case Eof => Eof
        case Full => Full
        case Ok(list, bits2) => Ok([d] + list, bits2)
  }

  // ---------------------------------------------------------------- the loss of one trip

  function Norm(s: Schema, d: Dom): Dom
    decreases s, 0
  {
    match s
    case Simple(_, leaf) => if d.Val? then Val(NormLeaf(leaf, d.v)) else d
    case Complex(_, fields) => if d.Struct? then Struct(NormFields(fields, d.slots)) else d
  }

  function NormFields(fs: Fields, slots: seq<seq<Dom>>): seq<seq<Dom>>
    decreases fs, 0
  {
    match fs
    case Done => []
    case Field(_, sub, rest) =>
      if slots == [] then [] else [NormList(sub, slots[0])] + NormFields(rest, slots[1..])
  }

  function NormList(sub: Schema, list: seq<Dom>): (r: seq<Dom>)
    ensures |r| == |list|
    decreases sub, |list| + 1
  {
    if list == [] then [] else [Norm(sub, list[0])] + NormList(sub, list[1..])
  }

  // ---------------------------------------------------------------- likeness

  /** How two trees of one shape may differ. */
  datatype Likeness = UpToFraction | RoundedDown

  predicate AlikeValues(l: Likeness, v: Value, w: Value) {
    match l
    case UpToFraction => if v.Time? then w.Time? && w.sec == v.sec else w == v
    case RoundedDown => w == if v.Time? then Time(v.sec, 16 * (v.frac / 16)) else v
  }

  predicate Alike(l: Likeness, s: Schema, d: Dom, e: Dom)
    decreases s, 0
  {
    match s
    case Simple(_, leaf) => d.Val? && e.Val? && KindMatches(leaf, e.v) && AlikeValues(l, d.v, e.v)
    case Complex(_, fields) => d.Struct? && e.Struct? && AlikeFields(l, fields, d.slots, e.slots)
  }

  predicate AlikeFields(l: Likeness, fs: Fields, slots: seq<seq<Dom>>, slots': seq<seq<Dom>>)
    decreases fs, 0
  {
    match fs
    case Done => slots == [] && slots' == []
    case Field(_, sub, rest) =>
      && slots != [] && slots' != []
      && AlikeList(l, sub, slots[0], slots'[0])
      && AlikeFields(l, rest, slots[1..], slots'[1..])
  }

  predicate AlikeList(l: Likeness, sub: Schema, list: seq<Dom>, list': seq<Dom>)
    decreases sub, |list| + 1
  {
    |list| == |list'| && (list == [] || (Alike(l, sub, list[0], list'[0]) && AlikeList(l, sub, list[1..], list'[1..])))
  }

  // ---------------------------------------------------------------- decode after encode

  lemma Peel<T>(x: T, a: seq<T>, b: seq<T>, c: seq<T>)
    ensures ([x] + a + b + c)[0] == x
    ensures ([x] + a + b + c)[1..] == a + (b + c)
  {
  }

  lemma Unpeel<T>(xs: seq<T>, a: seq<T>, b: seq<T>, c: seq<T>, bc: seq<T>)
    requires xs != [] && xs[1..] == a + bc && bc == b + c
    ensures xs == [xs[0]] + a + b + c
  {
    assert xs == [xs[0]] + xs[1..];
  }

  /** Reading an encoded tree, whatever follows it, gives the tree up to NormLeaf and stops at its last bit. */
  lemma {:induction false} ParseOfEncode(s: Schema, d: Dom, rest: seq<bool>, bounded: bool)
    requires Sound(s) && Conforms(s, d) && (bounded ==> Small(s, d))
    ensures Gives(Parse(s, Encode(s, d) + rest, bounded), Norm(s, d), rest)
    decreases s, 0
  {
    match s
    case Simple(_, leaf) =>
      DecodeEncodeLeaf(leaf, d.v);
      var bits := Encode(s, d) + rest;
      assert bits[..LeafWidth(leaf)] == EncodeLeaf(leaf, d.v);
      assert bits[LeafWidth(leaf)..] == rest;
    case Complex(_, fields) =>
      ParseOfEncodeFields(fields, d.slots, rest, bounded);
  }

  lemma {:induction false} ParseOfEncodeFields(fs: Fields, slots: seq<seq<Dom>>, rest: seq<bool>, bounded: bool)
    requires SoundFields(fs) && ConformsFields(fs, slots) && (bounded ==> SmallFields(fs, slots))
    ensures Gives(ParseFields(fs, EncodeFields(fs, slots) + rest, bounded), NormFields(fs, slots), rest)
    decreases fs, 0
  {
    match fs
    case Done =>
      assert EncodeFields(fs, slots) + rest == rest;
    case Field(opt, sub, more) =>
      var tail := EncodeFields(more, slots[1..]) + rest;
      assert EncodeFields(fs, slots) + rest == EncodeSlot(opt, sub, slots[0]) + tail;
      if opt {
        ParseOfEncodeList(sub, slots[0], tail, bounded, 0);
      } else {
        ParseOfEncode(sub, slots[0][0], tail, bounded);
        assert slots[0][1..] == [];
        assert NormList(sub, slots[0]) == [Norm(sub, slots[0][0])];
      }
      ParseOfEncodeFields(more, slots[1..], rest, bounded);
  }

  lemma {:induction false} ParseOfEncodeList(sub: Schema, list: seq<Dom>, rest: seq<bool>, bounded: bool, have: nat)
    requires Sound(sub) && ConformsList(sub, list)
    requires bounded ==> have + |list| <= 1 && SmallList(sub, list)
    ensures Gives(ParseList(sub, EncodeList(sub, list) + rest, bounded, have), NormList(sub, list), rest)
    decreases sub, |list| + 1
  {
    if list == [] {
      assert ([false] + rest)[1..] == rest;
    } else {
      ParseOfEncodeMore(sub, list[0], list[1..], rest, bounded, have);
    }
  }

  lemma {:induction false} ParseOfEncodeMore(sub: Schema, d: Dom, list: seq<Dom>, rest: seq<bool>, bounded: bool, have: nat)
    requires Sound(sub) && Conforms(sub, d) && ConformsList(sub, list)
    requires bounded ==> have == 0 && list == [] && Small(sub, d)
    ensures Gives(ParseList(sub, [true] + Encode(sub, d) + EncodeList(sub, list) + rest, bounded, have),
                  [Norm(sub, d)] + NormList(sub, list), rest)
    decreases sub, |list| + 2, 0
  {
    var bits := [true] + Encode(sub, d) + EncodeList(sub, list) + rest;
    var tail := EncodeList(sub, list) + rest;
    assert bits[0] && bits[1..] == Encode(sub, d) + tail by {
      Peel(true, Encode(sub, d), EncodeList(sub, list), rest);
    }
    ParseOfEncode(sub, d, tail, bounded);
    ParseOfEncodeList(sub, list, rest, bounded, have + 1);
    ParseListMore(sub, bits, bounded, have, Norm(sub, d), tail, NormList(sub, list), rest);
  }

  lemma ParseListMore(sub: Schema, bits: seq<bool>, bounded: bool, have: nat,
                      d: Dom, bits1: seq<bool>, list: seq<Dom>, bits2: seq<bool>)
    requires bits != [] && bits[0] && (bounded ==> have == 0)
    requires Gives(Parse(sub, bits[1..], bounded), d, bits1)
    requires Gives(ParseList(sub, bits1, bounded, have + 1), list, bits2)
    ensures Gives(ParseList(sub, bits, bounded, have), [d] + list, bits2)
  {
  }

  // ---------------------------------------------------------------- encode after decode

  /** An accepted stream is the encoding of the tree read from it, and that tree survives a trip unchanged. */
  lemma {:induction false} EncodeOfParse(s: Schema, bits: seq<bool>, bounded: bool)
    requires Sound(s) && Parse(s, bits, bounded).Ok?
    ensures var Ok(d, rest) := Parse(s, bits, bounded);
            bits == Encode(s, d) + rest && Conforms(s, d) && Norm(s, d) == d && (bounded ==> Small(s, d))
    decreases |bits|, s, 0
  {
    match s
    case Simple(_, leaf) =>
      EncodeDecodeLeaf(leaf, bits[..LeafWidth(leaf)]);
    case Complex(_, fields) =>
      EncodeOfParseFields(fields, bits, bounded);
  }

  lemma {:induction false} EncodeOfParseFields(fs: Fields, bits: seq<bool>, bounded: bool)
    requires SoundFields(fs) && ParseFields(fs, bits, bounded).Ok?
    ensures var Ok(slots, rest) := ParseFields(fs, bits, bounded);
            bits == EncodeFields(fs, slots) + rest && ConformsFields(fs, slots)
            && NormFields(fs, slots) == slots && (bounded ==> SmallFields(fs, slots))
    decreases |bits|, fs, 0
  {
    match fs
    case Done =>
    case Field(opt, sub, more) =>
      var Ok(list, bits1) := ParseSlot(opt, sub, bits, bounded);
      var Ok(slots, bits2) := ParseFields(more, bits1, bounded);
      EncodeOfParseSlot(opt, sub, bits, bounded);
      EncodeOfParseFields(more, bits1, bounded);
      FieldsCons(opt, sub, more, list, slots);
      assert EncodeSlot(opt, sub, list) + bits1 == EncodeFields(fs, [list] + slots) + bits2 by {
        Assoc(EncodeSlot(opt, sub, list), EncodeFields(more, slots), bits2);
      }
  }

  lemma {:induction false} EncodeOfParseSlot(opt: bool, sub: Schema, bits: seq<bool>, bounded: bool)
    requires Sound(sub) && ParseSlot(opt, sub, bits, bounded).Ok?
    ensures var Ok(list, rest) := ParseSlot(opt, sub, bits, bounded);
            bits == EncodeSlot(opt, sub, list) + rest && NormList(sub, list) == list && ConformsList(sub, list)
            && (opt || |list| == 1) && (bounded ==> |list| <= 1 && SmallList(sub, list))
    decreases |bits|, sub, 2
  {
    if opt {
      EncodeOfParseList(sub, bits, bounded, 0);
    } else {
      EncodeOfParse(sub, bits, bounded);
      ListCons(sub, Parse(sub, bits, bounded).v, []);
    }
  }

  lemma FieldsCons(opt: bool, sub: Schema, more: Fields, list: seq<Dom>, slots: seq<seq<Dom>>)
    ensures var fs := Field(opt, sub, more);
            && EncodeFields(fs, [list] + slots) == EncodeSlot(opt, sub, list) + EncodeFields(more, slots)
            && NormFields(fs, [list] + slots) == [NormList(sub, list)] + NormFields(more, slots)
            && (ConformsFields(fs, [list] + slots)
                == ((opt || |list| == 1) && ConformsList(sub, list) && ConformsFields(more, slots)))
            && (SmallFields(fs, [list] + slots) == (|list| <= 1 && SmallList(sub, list) && SmallFields(more, slots)))
  {
    assert ([list] + slots)[1..] == slots;
  }

  lemma ListCons(sub: Schema, d: Dom, list: seq<Dom>)
    ensures EncodeList(sub, [d] + list) == [true] + Encode(sub, d) + EncodeList(sub, list)
    ensures NormList(sub, [d] + list) == [Norm(sub, d)] + NormList(sub, list)
    ensures Conforms(sub, d) && ConformsList(sub, list) ==> ConformsList(sub, [d] + list)
    ensures Small(sub, d) && SmallList(sub, list) ==> SmallList(sub, [d] + list)
  {
    assert ([d] + list)[1..] == list;
  }

  lemma {:induction false} EncodeOfParseList(sub: Schema, bits: seq<bool>, bounded: bool, have: nat)
    requires Sound(sub) && ParseList(sub, bits, bounded, have).Ok?
    ensures var Ok(list, rest) := ParseList(sub, bits, bounded, have);
            bits == EncodeList(sub, list) + rest && NormList(sub, list) == list
            && ConformsList(sub, list)
            && (bounded ==> |list| <= 1 && (have > 0 ==> list == []) && SmallList(sub, list))
    decreases |bits|, sub, 1
  {
    if bits[0] {
      var Ok(d, bits1) := Parse(sub, bits[1..], bounded);
      var Ok(list, bits2) := ParseList(sub, bits1, bounded, have + 1);
      EncodeOfParse(sub, bits[1..], bounded);
      EncodeOfParseList(sub, bits1, bounded, have + 1);
      ListCons(sub, d, list);
      Unpeel(bits, Encode(sub, d), EncodeList(sub, list), bits2, bits1);
    } else {
      assert bits == [false] + bits[1..];
    }
  }
}
