/** What one trip over the wire loses, and when it loses nothing but the low bits of fractions;
    how many bits it takes. */
module Loss {
  import opened Bits
  import opened Wire

  // ---------------------------------------------------------------- exactness

  predicate InRangeValue(l: Likeness, leaf: Leaf, v: Value) {
    match leaf
    case IntLeaf(_, _, offset, width) => v.Int? && offset <= v.n < offset + Pow2(width)
    case TimeLeaf(secs, _, fracs) =>
      v.Time? && 0 <= v.sec < Pow2(secs) && (l.RoundedDown? ==> 0 <= v.frac < 16 * Pow2(fracs))
  }

  /** Every number lies in the window of its code. For UpToFraction the fractions do not matter. */
  predicate InRange(l: Likeness, s: Schema, d: Dom)
    decreases s, 0
  {
    match s
    case Simple(_, leaf) => d.Val? && InRangeValue(l, leaf, d.v)
    case Complex(_, fields) => d.Struct? && InRangeFields(l, fields, d.slots)
  }

  predicate InRangeFields(l: Likeness, fs: Fields, slots: seq<seq<Dom>>)
    decreases fs, 0
  {
    match fs
    case Done => slots == []
    case Field(_, sub, rest) =>
      slots != [] && InRangeList(l, sub, slots[0]) && InRangeFields(l, rest, slots[1..])
  }

  predicate InRangeList(l: Likeness, sub: Schema, list: seq<Dom>)
    decreases sub, |list| + 1
  {
    list == [] || (InRange(l, sub, list[0]) && InRangeList(l, sub, list[1..]))
  }

  lemma ModFixed(v: int, m: int)
    requires m > 0
    ensures v % m == v <==> 0 <= v < m
  {
    if 0 <= v < m {
      ModUnique(v, m, 0, v);
    }
  }

  lemma NormExactValue(l: Likeness, leaf: Leaf, v: Value, w: Value)
    requires KindMatches(leaf, w) && AlikeValues(UpToFraction, v, w) && (l.RoundedDown? ==> v == w)
    ensures AlikeValues(l, v, NormLeaf(leaf, w)) <==> InRangeValue(l, leaf, v)
  {
    match leaf
    case IntLeaf(_, _, offset, width) =>
      ModFixed(v.n - offset, Pow2(width));
    case TimeLeaf(secs, _, fracs) =>
      ModFixed(v.sec, Pow2(secs));
      ModFixed(v.frac / 16, Pow2(fracs));
  }

  /** A tree survives a trip, up to the rounding of its fractions, exactly if its numbers are in range.
      If its fractions were replaced beforehand (e instead of d), the same holds up to fractions. */
  lemma {:induction false} NormExact(l: Likeness, s: Schema, d: Dom, e: Dom)
    requires Alike(UpToFraction, s, d, e) && (l.RoundedDown? ==> d == e)
    ensures Alike(l, s, d, Norm(s, e)) <==> InRange(l, s, d)
    decreases s, 0
  {
    match s
    case Simple(_, leaf) => NormExactValue(l, leaf, d.v, e.v);
    case Complex(_, fields) => NormExactFields(l, fields, d.slots, e.slots);
  }

  lemma {:induction false} NormExactFields(l: Likeness, fs: Fields, slots: seq<seq<Dom>>, slots': seq<seq<Dom>>)
    requires AlikeFields(UpToFraction, fs, slots, slots') && (l.RoundedDown? ==> slots == slots')
    ensures AlikeFields(l, fs, slots, NormFields(fs, slots')) <==> InRangeFields(l, fs, slots)
    decreases fs, 0
  {
    match fs
    case Done =>
    case Field(_, sub, rest) =>
      NormExactList(l, sub, slots[0], slots'[0]);
      NormExactFields(l, rest, slots[1..], slots'[1..]);
  }

  lemma {:induction false} NormExactList(l: Likeness, sub: Schema, list: seq<Dom>, list': seq<Dom>)
    requires AlikeList(UpToFraction, sub, list, list') && (l.RoundedDown? ==> list == list')
    ensures AlikeList(l, sub, list, NormList(sub, list')) <==> InRangeList(l, sub, list)
    decreases sub, |list| + 1
  {
    if list != [] {
      NormExact(l, sub, list[0], list'[0]);
      NormExactList(l, sub, list[1..], list'[1..]);
    }
  }

  lemma {:induction false} AlikeSelf(s: Schema, d: Dom)
    requires Conforms(s, d)
    ensures Alike(UpToFraction, s, d, d)
    decreases s, 0
  {
    match s
    case Simple(_, _) =>
    case Complex(_, fields) => AlikeSelfFields(fields, d.slots);
  }

  lemma {:induction false} AlikeSelfFields(fs: Fields, slots: seq<seq<Dom>>)
    requires ConformsFields(fs, slots)
    ensures AlikeFields(UpToFraction, fs, slots, slots)
    decreases fs, 0
  {
    match fs
    case Done =>
    case Field(_, sub, rest) =>
      AlikeSelfList(sub, slots[0]);
      AlikeSelfFields(rest, slots[1..]);
  }

  lemma {:induction false} AlikeSelfList(sub: Schema, list: seq<Dom>)
    requires ConformsList(sub, list)
    ensures AlikeList(UpToFraction, sub, list, list)
    decreases sub, |list| + 1
  {
    if list != [] {
      AlikeSelf(sub, list[0]);
      AlikeSelfList(sub, list[1..]);
    }
  }

  /** What is alike has the same shape. */
  lemma {:induction false} AlikeShape(l: Likeness, s: Schema, d: Dom, e: Dom)
    requires Conforms(s, d) && Alike(l, s, d, e)
    ensures Conforms(s, e) && (Small(s, d) ==> Small(s, e))
    decreases s, 0
  {
    match s
    case Simple(_, _) =>
    case Complex(_, fields) => AlikeShapeFields(l, fields, d.slots, e.slots);
  }

  lemma {:induction false} AlikeShapeFields(l: Likeness, fs: Fields, slots: seq<seq<Dom>>, slots': seq<seq<Dom>>)
    requires ConformsFields(fs, slots) && AlikeFields(l, fs, slots, slots')
    ensures ConformsFields(fs, slots') && (SmallFields(fs, slots) ==> SmallFields(fs, slots'))
    decreases fs, 0
  {
    match fs
    case Done =>
    case Field(_, sub, rest) =>
      AlikeShapeList(l, sub, slots[0], slots'[0]);
      AlikeShapeFields(l, rest, slots[1..], slots'[1..]);
  }

  lemma {:induction false} AlikeShapeList(l: Likeness, sub: Schema, list: seq<Dom>, list': seq<Dom>)
    requires ConformsList(sub, list) && AlikeList(l, sub, list, list')
    ensures ConformsList(sub, list') && (SmallList(sub, list) ==> SmallList(sub, list'))
    decreases sub, |list| + 1
  {
    if list != [] {
      AlikeShape(l, sub, list[0], list'[0]);
      AlikeShapeList(l, sub, list[1..], list'[1..]);
    }
  }

  // ---------------------------------------------------------------- length

  /** The least (most = false) or greatest number of bits of a tree without repetitions. */
  function Bound(s: Schema, most: bool): nat {
    match s
    case Simple(_, leaf) => LeafWidth(leaf)
    case Complex(_, fields) => BoundFields(fields, most)
  }

  function BoundFields(fs: Fields, most: bool): nat {
    match fs
    case Done => 0
    case Field(opt, sub, rest) =>
      (if !opt then Bound(sub, most) else if most then Bound(sub, most) + 2 else 1) + BoundFields(rest, most)
  }

  lemma SlotLength(opt: bool, sub: Schema, list: seq<Dom>)
    requires |list| <= 1 && (opt || |list| == 1)
    ensures |EncodeSlot(opt, sub, list)|
            == if list == [] then 1 else |Encode(sub, list[0])| + if opt then 2 else 0
  {
    if list != [] {
      assert list[1..] == [];
      assert EncodeList(sub, list[1..]) == [false];
    }
  }

  /** What the optional elements that are present add to the least length: each its own least length and one
      more continuation bit. */
  function Extra(s: Schema, d: Dom): nat
    decreases s, 0
  {
    if s.Complex? && d.Struct? then ExtraFields(s.fields, d.slots) else 0
  }

  function ExtraFields(fs: Fields, slots: seq<seq<Dom>>): nat
    decreases fs, 0
  {
    if fs.Done? || slots == [] then 0
    else ExtraSlot(fs.opt, fs.sub, slots[0]) + ExtraFields(fs.rest, slots[1..])
  }

  function ExtraSlot(opt: bool, sub: Schema, list: seq<Dom>): nat
    decreases sub, 1
  {
    if list == [] then 0 else (if opt then 1 + Bound(sub, false) else 0) + Extra(sub, list[0])
  }

  /** The length of an encoding is a function of which optional elements are present. */
  lemma {:induction false} EncodeLength(s: Schema, d: Dom)
    requires Conforms(s, d) && Small(s, d)
    ensures |Encode(s, d)| == Bound(s, false) + Extra(s, d)
    ensures Bound(s, false) <= |Encode(s, d)| <= Bound(s, true)
    decreases s
  {
    match s
    case Simple(_, leaf) => LeafWidthOfCode(leaf, d.v);
    case Complex(_, fields) => EncodeLengthFields(fields, d.slots);
  }

  lemma {:induction false} EncodeLengthFields(fs: Fields, slots: seq<seq<Dom>>)
    requires ConformsFields(fs, slots) && SmallFields(fs, slots)
    ensures |EncodeFields(fs, slots)| == BoundFields(fs, false) + ExtraFields(fs, slots)
    ensures BoundFields(fs, false) <= |EncodeFields(fs, slots)| <= BoundFields(fs, true)
    decreases fs
  {
    match fs
    case Done =>
    case Field(opt, sub, rest) =>
      EncodeLengthFields(rest, slots[1..]);
      SlotLength(opt, sub, slots[0]);
      if slots[0] != [] {
        EncodeLength(sub, slots[0][0]);
      }
  }

  /** A tree with no optional element at all, or with one of each. */
  function Extreme(s: Schema, most: bool): Dom {
    match s
    case Simple(_, leaf) => Val(ZeroLeaf(leaf))
    case Complex(_, fields) => Struct(ExtremeFields(fields, most))
  }

  function ExtremeFields(fs: Fields, most: bool): seq<seq<Dom>> {
    match fs
    case Done => []
    case Field(opt, sub, rest) => [if opt && !most then [] else [Extreme(sub, most)]] + ExtremeFields(rest, most)
  }

  /** Both bounds are met. */
  lemma {:induction false} ExtremeLength(s: Schema, most: bool)
    ensures Conforms(s, Extreme(s, most)) && Small(s, Extreme(s, most))
    ensures |Encode(s, Extreme(s, most))| == Bound(s, most)
    decreases s
  {
    match s
    case Simple(_, leaf) => LeafWidthOfCode(leaf, ZeroLeaf(leaf));
    case Complex(_, fields) => ExtremeLengthFields(fields, most);
  }

  lemma {:induction false} ExtremeLengthFields(fs: Fields, most: bool)
    ensures ConformsFields(fs, ExtremeFields(fs, most)) && SmallFields(fs, ExtremeFields(fs, most))
    ensures |EncodeFields(fs, ExtremeFields(fs, most))| == BoundFields(fs, most)
    decreases fs
  {
    match fs
    case Done =>
    case Field(opt, sub, rest) =>
      var slots := ExtremeFields(fs, most);
      assert slots[1..] == ExtremeFields(rest, most);
      assert slots[0] != [] ==> slots[0][1..] == [];
      ExtremeLength(sub, most);
      ExtremeLengthFields(rest, most);
      SlotLength(opt, sub, slots[0]);
  }
}
