/** Which bits a *_dom2bin automaton has written when it stands at a label. */
module Dom2BinBits {
  import opened Options
  import opened Sequences
  import opened Wire
  import opened Automata
  import opened Pointers
  import opened Runs
  import opened Dom2Bin

  // ---------------------------------------------------------------- what stands before a label

  /** The code of what comes before label `lbl` in the fields `fs`, laid out from `b` on: the fields passed, and
      what has been written of the field the label lies in. `again` says that the label is the first one of an
      optional element that has been written already. */
  function BeforeInFields(fs: Fields, slots: seq<seq<Dom>>, b: nat, lbl: nat, again: bool): seq<bool>
    decreases fs, 0
  {
    match fs
    case Done => []
    case Field(opt, sub, rest) =>
      if slots == [] then []
      else if lbl < b + Size(sub) then BeforeInElement(opt, sub, slots[0], b, lbl, again)
      else EncodeSlot(opt, sub, slots[0]) + BeforeInFields(rest, slots[1..], b + Size(sub), lbl, again)
  }

  function BeforeInElement(opt: bool, s: Schema, list: seq<Dom>, b: nat, lbl: nat, again: bool): seq<bool>
    decreases s, 1
  {
    if list == [] then []
    else if lbl <= b then if again then [true] + Encode(s, list[0]) else []
    else if s.Simple? || !list[0].Struct? then []
    else Mark(opt) + BeforeInFields(s.fields, list[0].slots, b + 1, lbl, again)
  }

  /** The code of everything before label `lbl` of the whole document. */
  function Before(s: Schema, dom: Dom, lbl: nat, again: bool): seq<bool> {
    if s.Simple? || !dom.Struct? || lbl == 0 then []
    else if lbl >= Size(s) then Encode(s, dom)
    else BeforeInFields(s.fields, dom.slots, 1, lbl, again)
  }

  /** Every structure the label lies in is present, and so is the element that is said to have been written. */
  predicate PresentInFields(fs: Fields, slots: seq<seq<Dom>>, b: nat, lbl: nat, again: bool)
    decreases fs, 0
  {
    match fs
    case Done => !again
    case Field(opt, sub, rest) =>
      slots != []
      && if lbl < b + Size(sub) then PresentInElement(opt, sub, slots[0], b, lbl, again)
         else PresentInFields(rest, slots[1..], b + Size(sub), lbl, again)
  }

  predicate PresentInElement(opt: bool, s: Schema, list: seq<Dom>, b: nat, lbl: nat, again: bool)
    decreases s, 1
  {
    if lbl <= b then again ==> opt && list != []
    else s.Complex? && list != [] && list[0].Struct? && PresentInFields(s.fields, list[0].slots, b + 1, lbl, again)
  }

  predicate Present(s: Schema, dom: Dom, lbl: nat, again: bool) {
    if lbl == 0 || lbl >= Size(s) then !again
    else s.Complex? && dom.Struct? && PresentInFields(s.fields, dom.slots, 1, lbl, again)
  }

  // ---------------------------------------------------------------- configurations inside an element

  /** A configuration between the first state of an element and the state behind it, entered with the stack
      st + [p] and the bits `bits`. */
  predicate InElement(opt: bool, s: Schema, k: nat, b: nat, st: seq<Ptr>, p: Ptr, list: seq<Dom>, bits: seq<bool>, c: Conf)
    decreases s, 1
  {
    && c.Conf? && b <= c.lbl < b + Size(s)
    && if c.lbl == b then
         c.stack == st + [p]
         && if c.last.None? then c.bits == bits
            else opt && list != [] && c.last == Some(p + [(k, 0)]) && c.bits == bits + [true] + Encode(s, list[0])
       else
         s.Complex? && list != [] && list[0].Struct?
         && InFields(s.fields, 0, b + 1, st + [p], p + [(k, 0)], list[0].slots, bits + Mark(opt), c)
  }

  /** A configuration among fields, or behind the last of them. */
  predicate InFields(fs: Fields, k: nat, b: nat, st: seq<Ptr>, p: Ptr, slots: seq<seq<Dom>>, bits: seq<bool>, c: Conf)
    decreases fs, 0
  {
    match fs
    case Done => c == Conf(b, st + [p], None, bits)
    case Field(opt, sub, rest) =>
      c.Conf? && k < |slots|
      && if c.lbl < b + Size(sub) then InElement(opt, sub, k, b, st, p, slots[k], bits, c)
         else InFields(rest, k + 1, b + Size(sub), st, p, slots, bits + EncodeSlot(opt, sub, slots[k]), c)
  }

  lemma {:induction false} Entered(fs: Fields, k: nat, b: nat, st: seq<Ptr>, p: Ptr, slots: seq<seq<Dom>>, bits: seq<bool>)
    requires k <= |slots| && ConformsFields(fs, slots[k..])
    ensures InFields(fs, k, b, st, p, slots, bits, Conf(b, st + [p], None, bits))
  {
    if fs.Field? {
      assert slots[k..][0] == slots[k];
      assert Size(fs.sub) >= 1;
    }
  }

  /** Fields are left at the state behind them, with their whole code written. */
  lemma {:induction false} FieldsRange(fs: Fields, k: nat, b: nat, st: seq<Ptr>, p: Ptr, slots: seq<seq<Dom>>,
                                       bits: seq<bool>, c: Conf)
    requires InFields(fs, k, b, st, p, slots, bits, c) && k <= |slots|
    ensures c.Conf? && b <= c.lbl <= b + SizeFields(fs)
    ensures c.lbl == b + SizeFields(fs) ==> c == Conf(c.lbl, st + [p], None, bits + EncodeFields(fs, slots[k..]))
    decreases fs
  {
    match fs
    case Done =>
      assert bits + [] == bits;
    case Field(opt, sub, rest) =>
      if c.lbl >= b + Size(sub) {
        FieldsRange(rest, k + 1, b + Size(sub), st, p, slots, bits + EncodeSlot(opt, sub, slots[k]), c);
      }
      assert slots[k..][0] == slots[k] && slots[k..][1..] == slots[k + 1..];
      Assoc(bits, EncodeSlot(opt, sub, slots[k]), EncodeFields(rest, slots[k + 1..]));
  }

  // ---------------------------------------------------------------- one step

  /** A step from a configuration inside an element stays inside, or goes to the state behind it with the whole
      code of the element written. */
  lemma {:induction false} StepInElement(table: seq<State>, dom: Dom, opt: bool, s: Schema, k: nat, b: nat,
                                         st: seq<Ptr>, p: Ptr, list: seq<Dom>, bits: seq<bool>, c: Conf)
    requires LaidElement(table, opt, s, k, b) && ListAt(dom, p, k) == Some(list)
    requires ConformsList(s, list) && SmallList(s, list) && |list| <= 1 && (opt || |list| == 1)
    requires InElement(opt, s, k, b, st, p, list, bits, c)
    ensures var d := Step(table, dom, c);
            || InElement(opt, s, k, b, st, p, list, bits, d)
            || d == Conf(b + Size(s), st + [p], None, bits + EncodeSlot(opt, s, list))
    decreases s, 1
  {
    if list != [] {
      DerefMember(dom, p, k, 0);
      SlotOfOne(opt, s, list, bits);
    }
    if c.lbl == b {
      StepAtFirst(table, dom, opt, s, k, b, st, p, list, bits, c);
    } else {
      var q, slots := p + [(k, 0)], list[0].slots;
      FieldsRange(s.fields, 0, b + 1, st + [p], q, slots, bits + Mark(opt), c);
      if c.lbl == b + Size(s) - 1 {
        assert slots[0..] == slots;
        StepAtEnd(table, dom, opt, s, k, b, st, p, list, bits, c);
      } else {
        assert slots[0..] == slots;
        StepInFields(table, dom, s.fields, 0, b + 1, st + [p], q, slots, bits + Mark(opt), c);
        FieldsRange(s.fields, 0, b + 1, st + [p], q, slots, bits + Mark(opt), Step(table, dom, c));
      }
    }
  }

  /** The first state of an element, reached for the first time or again. */
  lemma StepAtFirst(table: seq<State>, dom: Dom, opt: bool, s: Schema, k: nat, b: nat,
                    st: seq<Ptr>, p: Ptr, list: seq<Dom>, bits: seq<bool>, c: Conf)
    requires LaidElement(table, opt, s, k, b) && ListAt(dom, p, k) == Some(list)
    requires ConformsList(s, list) && |list| <= 1 && (opt || |list| == 1)
    requires InElement(opt, s, k, b, st, p, list, bits, c) && c.lbl == b
    requires list != [] ==> Deref(dom, p + [(k, 0)]) == Some(list[0])
    ensures var d := Step(table, dom, c);
            || InElement(opt, s, k, b, st, p, list, bits, d)
            || d == Conf(b + Size(s), st + [p], None, bits + EncodeSlot(opt, s, list))
  {
    if list == [] {
      assert EncodeSlot(opt, s, list) == [false];
    } else {
      SlotOfOne(opt, s, list, bits);
      if c.last.None? {
        assert bits + [] == bits;
        if s.Complex? {
          assert list[0].slots[0..] == list[0].slots;
          Entered(s.fields, 0, b + 1, st + [p], p + [(k, 0)], list[0].slots, bits + Mark(opt));
        } else {
          assert bits + [] + EncodeLeaf(s.leaf, list[0].v) + [] == bits + EncodeLeaf(s.leaf, list[0].v);
        }
      }
    }
  }

  /** The End state of a structure. */
  lemma StepAtEnd(table: seq<State>, dom: Dom, opt: bool, s: Schema, k: nat, b: nat,
                  st: seq<Ptr>, p: Ptr, list: seq<Dom>, bits: seq<bool>, c: Conf)
    requires LaidElement(table, opt, s, k, b) && s.Complex? && |list| == 1 && Conforms(s, list[0])
    requires c == Conf(b + Size(s) - 1, st + [p] + [p + [(k, 0)]], None, bits + Mark(opt) + Encode(s, list[0]))
    ensures var d := Step(table, dom, c);
            || InElement(opt, s, k, b, st, p, list, bits, d)
            || d == Conf(b + Size(s), st + [p], None, bits + EncodeSlot(opt, s, list))
  {
    assert Pop(c.stack) == st + [p];
    SlotOfOne(opt, s, list, bits);
    if !opt {
      assert bits + [] == bits;
      assert bits + Encode(s, list[0]) + [] == bits + Encode(s, list[0]);
    }
  }

  lemma {:induction false} StepInFields(table: seq<State>, dom: Dom, fs: Fields, k: nat, b: nat,
                                        st: seq<Ptr>, p: Ptr, slots: seq<seq<Dom>>, bits: seq<bool>, c: Conf)
    requires LaidFields(table, fs, k, b) && Deref(dom, p) == Some(Struct(slots)) && k <= |slots|
    requires ConformsFields(fs, slots[k..]) && SmallFields(fs, slots[k..])
    requires InFields(fs, k, b, st, p, slots, bits, c) && c.lbl < b + SizeFields(fs)
    ensures InFields(fs, k, b, st, p, slots, bits, Step(table, dom, c))
    decreases fs, 0
  {
    match fs
    case Field(opt, sub, rest) =>
      assert slots[k..][0] == slots[k] && slots[k..][1..] == slots[k + 1..];
      var code := EncodeSlot(opt, sub, slots[k]);
      Entered(rest, k + 1, b + Size(sub), st, p, slots, bits + code);
      if c.lbl < b + Size(sub) {
        StepInElement(table, dom, opt, sub, k, b, st, p, slots[k], bits, c);
      } else {
        StepInFields(table, dom, rest, k + 1, b + Size(sub), st, p, slots, bits + code, c);
        FieldsRange(rest, k + 1, b + Size(sub), st, p, slots, bits + code, Step(table, dom, c));
      }
  }

  // ---------------------------------------------------------------- the bits, from the label

  lemma {:induction false} BitsInFields(fs: Fields, k: nat, b: nat, st: seq<Ptr>, p: Ptr, slots: seq<seq<Dom>>,
                                        bits: seq<bool>, c: Conf)
    requires k <= |slots| && InFields(fs, k, b, st, p, slots, bits, c)
    ensures c.bits == bits + BeforeInFields(fs, slots[k..], b, c.lbl, c.last.Some?)
    ensures PresentInFields(fs, slots[k..], b, c.lbl, c.last.Some?)
    decreases fs, 0
  {
    match fs
    case Done =>
      assert bits + [] == bits;
    case Field(opt, sub, rest) =>
      assert slots[k..][0] == slots[k] && slots[k..][1..] == slots[k + 1..];
      if c.lbl < b + Size(sub) {
        BitsInElement(opt, sub, k, b, st, p, slots[k], bits, c);
      } else {
        var code := EncodeSlot(opt, sub, slots[k]);
        BitsInFields(rest, k + 1, b + Size(sub), st, p, slots, bits + code, c);
        Assoc(bits, code, BeforeInFields(rest, slots[k + 1..], b + Size(sub), c.lbl, c.last.Some?));
      }
  }

  lemma {:induction false} BitsInElement(opt: bool, s: Schema, k: nat, b: nat, st: seq<Ptr>, p: Ptr, list: seq<Dom>,
                                         bits: seq<bool>, c: Conf)
    requires InElement(opt, s, k, b, st, p, list, bits, c)
    ensures c.bits == bits + BeforeInElement(opt, s, list, b, c.lbl, c.last.Some?)
    ensures PresentInElement(opt, s, list, b, c.lbl, c.last.Some?)
    decreases s, 1
  {
    if c.lbl == b {
      if c.last.None? {
        assert bits + [] == bits;
      } else {
        Assoc(bits, [true], Encode(s, list[0]));
      }
    } else {
      var slots := list[0].slots;
      assert slots[0..] == slots;
      BitsInFields(s.fields, 0, b + 1, st + [p], p + [(k, 0)], slots, bits + Mark(opt), c);
      Assoc(bits, Mark(opt), BeforeInFields(s.fields, slots, b + 1, c.lbl, c.last.Some?));
    }
  }

  // ---------------------------------------------------------------- the whole document

  /** Where a run over the document can stand. */
  ghost predicate InDocument(table: seq<State>, s: Schema, dom: Dom, bits: seq<bool>, c: Conf) {
    || c == Start(bits)
    || c == Conf(|table|, [], None, bits + Encode(s, dom))
    || (s.Complex? && dom.Struct? && c.Conf? && 0 < c.lbl < |table| && InFields(s.fields, 0, 1, [], [], dom.slots, bits, c))
  }

  lemma StepInDocument(table: seq<State>, s: Schema, dom: Dom, bits: seq<bool>, c: Conf)
    requires Laid(table, s) && Conforms(s, dom) && Small(s, dom) && InDocument(table, s, dom, bits, c)
    ensures InDocument(table, s, dom, bits, Step(table, dom, c))
  {
    var slots, root: Ptr := dom.slots, [];
    assert slots[0..] == slots && [] + [root] == [root];
    if c == Start(bits) {
      Entered(s.fields, 0, 1, [], root, slots, bits);
    } else if c.lbl < |table| {
      FieldsRange(s.fields, 0, 1, [], root, slots, bits, c);
      if c.lbl < |table| - 1 {
        StepInFields(table, dom, s.fields, 0, 1, [], root, slots, bits, c);
        FieldsRange(s.fields, 0, 1, [], root, slots, bits, Step(table, dom, c));
      }
    }
  }

  /** After any number of steps no invalid access has happened, and the bits written are the code of everything
      before the label, no more and no less; every structure the label lies in is present. */
  lemma {:induction false} EveryBit(table: seq<State>, s: Schema, dom: Dom, bits: seq<bool>, i: nat)
    requires Laid(table, s) && Conforms(s, dom) && Small(s, dom)
    ensures var c := Run(Stepper(table, dom), Start(bits), i);
            && InDocument(table, s, dom, bits, c)
            && c.Conf? && c.lbl <= |table| && c.bits == bits + Before(s, dom, c.lbl, c.last.Some?)
            && Present(s, dom, c.lbl, c.last.Some?)
    decreases i
  {
    var step, start := Stepper(table, dom), Start(bits);
    if i > 0 {
      EveryBit(table, s, dom, bits, i - 1);
      RunNext(step, start, i - 1);
      StepInDocument(table, s, dom, bits, Run(step, start, i - 1));
    }
    var c := Run(step, start, i);
    assert bits + [] == bits;
    if c != start && c.lbl < |table| {
      assert dom.slots[0..] == dom.slots;
      BitsInFields(s.fields, 0, 1, [], [], dom.slots, bits, c);
    }
  }
}
