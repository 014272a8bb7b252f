/** The *_dom2bin automata: a walk over the structure with a pointer stack and a `last` cursor, writing bits. */
module Dom2Bin {
  import opened Options
  import opened Sequences
  import opened Bits
  import opened Wire
  import opened Automata
  import opened Pointers
  import opened Runs

  /** The local variables of the automaton and the bits written so far. `Crash` is an invalid dereference,
      one through a stale cursor of another type included. */
  datatype Conf = Conf(lbl: nat, stack: seq<Ptr>, last: Option<Ptr>, bits: seq<bool>) | Crash

  /** The generated next_* functions. `return last++` yields `last` itself, so an occurrence
      that is not the last one is returned again. */
  function NextOccurrence(parent: Ptr, k: nat, list: seq<Dom>, last: Option<Ptr>): Option<Ptr> {
    if list == [] then None
    else if last.None? then Some(parent + [(k, 0)])
    else if last.value != parent + [(k, |list| - 1)] then last
    else None
  }

  function Step(table: seq<State>, dom: Dom, c: Conf): Conf {
    if c.Crash? || c.lbl >= |table| then c
    else if c.stack == [] && !table[c.lbl].Root? then Crash
    else
      match table[c.lbl]
      case Root(_) => c.(lbl := c.lbl + 1)
      case Begin(_, opt, k, exit, _) => StepBegin(dom, c, opt, k, exit)
      case Leaf(_, opt, k, leaf) => StepLeaf(dom, c, opt, k, leaf)
      case End(_, opt, back) =>
        if opt then Conf(back, Pop(c.stack), Some(Top(c.stack)), c.bits)
        else Conf(c.lbl + 1, Pop(c.stack), c.last, c.bits)
  }

  function StepBegin(dom: Dom, c: Conf, opt: bool, k: nat, exit: nat): Conf
    requires c.Conf? && c.stack != []
  {
    var parent := Top(c.stack);
    match ListAt(dom, parent, k)
    case None => Crash
    case Some(list) =>
      if !opt then Conf(c.lbl + 1, c.stack + [parent + [(k, 0)]], c.last, c.bits)
      else
        match NextOccurrence(parent, k, list, c.last)
        case None => Conf(exit, c.stack, None, c.bits + [false])
        case Some(cur) =>
          if cur != parent + [(k, 0)] then Crash
          else Conf(c.lbl + 1, c.stack + [cur], c.last, c.bits + [true])
  }

  /** One turn of the loop of an optional simple element, or a mandatory one at once. */
  function StepLeaf(dom: Dom, c: Conf, opt: bool, k: nat, leaf: Wire.Leaf): Conf
    requires c.Conf? && c.stack != []
  {
    var parent := Top(c.stack);
    match ListAt(dom, parent, k)
    case None => Crash
    case Some(list) =>
      var next := if opt then NextOccurrence(parent, k, list, c.last) else Some(parent + [(k, 0)]);
      match next
      case None => Conf(c.lbl + 1, c.stack, None, c.bits + [false])
      case Some(cur) =>
        match Deref(dom, cur)
        case Some(Val(v)) =>
          if !KindMatches(leaf, v) || cur != parent + [(k, 0)] then Crash
          else if opt then Conf(c.lbl, c.stack, next, c.bits + [true] + EncodeLeaf(leaf, v))
          else Conf(c.lbl + 1, c.stack, c.last, c.bits + EncodeLeaf(leaf, v))
        case _ => Crash
  }

  function Stepper(table: seq<State>, dom: Dom): Conf -> Conf {
    (c: Conf) => Step(table, dom, c)
  }

  // ---------------------------------------------------------------- what a run writes

  /** From the first state of an element to the state after it: its encoding is written, the stack is back
      as it was, and `last` is NULL again. */
  lemma {:induction false} ElementWritten(table: seq<State>, dom: Dom, opt: bool, sub: Schema, k: nat, b: nat,
                                          st: seq<Ptr>, p: Ptr, list: seq<Dom>, bits: seq<bool>)
    requires LaidElement(table, opt, sub, k, b)
    requires ListAt(dom, p, k) == Some(list)
    requires ConformsList(sub, list) && SmallList(sub, list) && |list| <= 1 && (opt || |list| == 1)
    ensures Reaches(Stepper(table, dom), Conf(b, st + [p], None, bits),
                    Conf(b + Size(sub), st + [p], None, bits + EncodeSlot(opt, sub, list)))
    decreases sub, 1
  {
    var step := Stepper(table, dom);
    var c := Conf(b, st + [p], None, bits);
    var q := p + [(k, 0)];
    if list == [] {
      assert EncodeSlot(opt, sub, list) == [false];
      assert step(c) == Conf(b + Size(sub), st + [p], None, bits + [false]);
      Here(step, step(c));
      After(step, c, step(c));
    } else {
      DerefMember(dom, p, k, 0);
      assert list[1..] == [];
      match sub
      case Simple(_, leaf) =>
        LeafWritten(table, dom, opt, sub, k, b, st, p, list, bits);
      case Complex(_, fields) =>
        var mark := if opt then [true] else [];
        var c1 := Conf(b + 1, st + [p] + [q], None, bits + mark);
        assert step(c) == c1 by { assert bits + [] == bits; }
        var slots := list[0].slots;
        assert slots[0..] == slots;
        FieldsWritten(table, dom, fields, 0, b + 1, st + [p], q, slots, bits + mark);
        var c2 := Conf(b + Size(sub) - 1, st + [p] + [q], None, bits + mark + EncodeFields(fields, slots));
        EndWritten(table, dom, opt, sub, k, b, st, p, list, c2.bits);
        var d := Conf(b + Size(sub), st + [p], None, bits + EncodeSlot(opt, sub, list));
        assert c2.bits + (if opt then [false] else []) == d.bits by {
          SlotOfOne(opt, sub, list, bits);
        }
        Then(step, c1, c2, d);
        After(step, c, d);
    }
  }

  lemma SlotOfOne(opt: bool, sub: Schema, list: seq<Dom>, bits: seq<bool>)
    requires |list| == 1
    ensures bits + (if opt then [true] else []) + Encode(sub, list[0]) + (if opt then [false] else [])
            == bits + EncodeSlot(opt, sub, list)
  {
    var e := Encode(sub, list[0]);
    assert list[1..] == [];
    if opt {
      assert EncodeList(sub, list[1..]) == [false];
      assert EncodeSlot(opt, sub, list) == [true] + e + [false];
      assert bits + [true] + e + [false] == bits + ([true] + e + [false]);
    } else {
      assert bits + [] + e + [] == bits + e;
    }
  }

  /** A simple element that is present. */
  lemma LeafWritten(table: seq<State>, dom: Dom, opt: bool, sub: Schema, k: nat, b: nat,
                    st: seq<Ptr>, p: Ptr, list: seq<Dom>, bits: seq<bool>)
    requires LaidElement(table, opt, sub, k, b) && sub.Simple?
    requires ListAt(dom, p, k) == Some(list) && |list| == 1 && Conforms(sub, list[0])
    ensures Reaches(Stepper(table, dom), Conf(b, st + [p], None, bits),
                    Conf(b + 1, st + [p], None, bits + EncodeSlot(opt, sub, list)))
  {
    var step := Stepper(table, dom);
    var c := Conf(b, st + [p], None, bits);
    var q := p + [(k, 0)];
    var code := EncodeLeaf(sub.leaf, list[0].v);
    DerefMember(dom, p, k, 0);
    SlotOfOne(opt, sub, list, bits);
    var d := Conf(b + 1, st + [p], None, bits + EncodeSlot(opt, sub, list));
    Here(step, d);
    if opt {
      var c1 := Conf(b, st + [p], Some(q), bits + [true] + code);
      assert step(c) == c1;
      assert step(c1) == d;
      After(step, c1, d);
    } else {
      assert step(c) == d by { assert bits + [] + code + [] == bits + code; }
    }
    After(step, c, d);
  }

  /** The End state of a structure, and for an optional one the failing retry of its Begin state. */
  lemma EndWritten(table: seq<State>, dom: Dom, opt: bool, sub: Schema, k: nat, b: nat,
                   st: seq<Ptr>, p: Ptr, list: seq<Dom>, bits: seq<bool>)
    requires LaidElement(table, opt, sub, k, b) && sub.Complex?
    requires ListAt(dom, p, k) == Some(list) && |list| == 1
    ensures Reaches(Stepper(table, dom), Conf(b + Size(sub) - 1, st + [p] + [p + [(k, 0)]], None, bits),
                    Conf(b + Size(sub), st + [p], None, bits + if opt then [false] else []))
  {
    var step := Stepper(table, dom);
    var q := p + [(k, 0)];
    var c := Conf(b + Size(sub) - 1, st + [p] + [q], None, bits);
    var d := Conf(b + Size(sub), st + [p], None, bits + if opt then [false] else []);
    assert Pop(c.stack) == st + [p];
    Here(step, d);
    if opt {
      var c1 := Conf(b, st + [p], Some(q), bits);
      assert step(c) == c1;
      assert step(c1) == d;
      After(step, c1, d);
    } else {
      assert step(c) == d;
    }
    After(step, c, d);
  }

  /** The fields of a structure from number k on. */
  lemma {:induction false} FieldsWritten(table: seq<State>, dom: Dom, fs: Fields, k: nat, b: nat,
                                         st: seq<Ptr>, p: Ptr, slots: seq<seq<Dom>>, bits: seq<bool>)
    requires LaidFields(table, fs, k, b)
    requires Deref(dom, p) == Some(Struct(slots)) && k <= |slots|
    requires ConformsFields(fs, slots[k..]) && SmallFields(fs, slots[k..])
    ensures Reaches(Stepper(table, dom), Conf(b, st + [p], None, bits),
                    Conf(b + SizeFields(fs), st + [p], None, bits + EncodeFields(fs, slots[k..])))
    decreases fs
  {
    var step := Stepper(table, dom);
    var c := Conf(b, st + [p], None, bits);
    match fs
    case Done =>
      assert bits + [] == bits;
      Here(step, c);
    case Field(opt, sub, rest) =>
      assert slots[k..][1..] == slots[k + 1..];
      var code := EncodeSlot(opt, sub, slots[k]);
      ElementWritten(table, dom, opt, sub, k, b, st, p, slots[k], bits);
      FieldsWritten(table, dom, rest, k + 1, b + Size(sub), st, p, slots, bits + code);
      Assoc(bits, code, EncodeFields(rest, slots[k + 1..]));
      Then(step, c, Conf(b + Size(sub), st + [p], None, bits + code),
           Conf(b + SizeFields(fs), st + [p], None, bits + EncodeFields(fs, slots[k..])));
  }

  function Start(bits: seq<bool>): Conf {
    Conf(0, [[]], None, bits)
  }

  /** From the start state to the stop state exactly the encoding of the document element is written. */
  lemma DocumentWritten(table: seq<State>, dom: Dom, s: Schema, bits: seq<bool>)
    requires Laid(table, s) && Conforms(s, dom) && Small(s, dom)
    ensures Reaches(Stepper(table, dom), Start(bits), Conf(|table|, [], None, bits + Encode(s, dom)))
  {
    var step := Stepper(table, dom);
    var out := bits + Encode(s, dom);
    var c1 := Conf(1, [[]], None, bits);
    var root: Ptr := [];
    assert [] + [root] == [root];
    assert dom.slots[0..] == dom.slots;
    FieldsWritten(table, dom, s.fields, 0, 1, [], [], dom.slots, bits);
    var c2 := Conf(|table| - 1, [[]], None, out);
    assert step(c2) == Conf(|table|, [], None, out);
    Here(step, step(c2));
    After(step, c2, step(c2));
    Then(step, c1, c2, step(c2));
    assert step(Start(bits)) == c1;
    After(step, Start(bits), step(c2));
  }

  // ---------------------------------------------------------------- the automaton

  /** A run that will halt properly does not crash on the way, and has steps left while it has not halted. */
  lemma Progress(table: seq<State>, dom: Dom, start: Conf, n: nat, i: nat)
    requires Run(Stepper(table, dom), start, n).Conf? && Run(Stepper(table, dom), start, n).lbl >= |table|
    requires Run(Stepper(table, dom), start, i).Conf? && Run(Stepper(table, dom), start, i).lbl < |table|
    ensures i < n
    ensures var c := Run(Stepper(table, dom), start, i);
            Step(table, dom, c).Conf? && Run(Stepper(table, dom), start, i + 1) == Step(table, dom, c)
  {
    var step := Stepper(table, dom);
    var c := Run(step, start, i);
    RunNext(step, start, i);
    if step(c).Crash? {
      HaltsOnce(step, start, n, i + 1);
    }
    assert step(c) != c;
    NotYet(step, start, n, i);
  }

  method WriteLeaf(writer: BitWriter, leaf: Wire.Leaf, v: Value)
    requires KindMatches(leaf, v)
    modifies writer
    ensures writer.bits == old(writer.bits) + EncodeLeaf(leaf, v)
  {
    match leaf
    case IntLeaf(_, cbits, offset, width) =>
      var d := (v.n - offset) % Pow2(cbits);
      writer.WriteBits(d, width);
    case TimeLeaf(secs, cfrac, fracs) =>
      writer.WriteBits(v.sec, secs);
      var usec := (v.frac / 16) % Pow2(cfrac);
      writer.WriteBits(usec, fracs);
  }

  /** The state of one run: the label, the pointer stack and the `last` cursor of the C function. */
  class Automaton {
    const table: seq<State>
    const dom: Dom
    const writer: BitWriter
    var lbl: nat
    var stack: seq<Ptr>
    var last: Option<Ptr>

    ghost function Now(): Conf
      reads this, writer
    {
      Conf(lbl, stack, last, writer.bits)
    }

    constructor (table: seq<State>, dom: Dom, writer: BitWriter)
      ensures this.table == table && this.dom == dom && this.writer == writer
      ensures Now() == Start(writer.bits)
    {
      this.table, this.dom, this.writer := table, dom, writer;
      lbl, stack, last := 0, [[]], None;
    }

    /** next_* of the list in field k of the structure on top of the stack. */
    function Next(k: nat): Option<Ptr>
      requires stack != [] && ListAt(dom, Top(stack), k).Some?
      reads this
    {
      NextOccurrence(Top(stack), k, ListAt(dom, Top(stack), k).value, last)
    }

    method AtBegin(opt: bool, k: nat, exit: nat)
      requires stack != [] && StepBegin(dom, Now(), opt, k, exit).Conf?
      modifies this, writer
      ensures Now() == old(StepBegin(dom, Now(), opt, k, exit))
    {
      if opt {
        var cur := Next(k);
        if cur.Some? {
          stack := stack + [cur.value];
          writer.WriteTrue();
          lbl := lbl + 1;
        } else {
          lbl := exit;
          writer.WriteFalse();
          last := None;
        }
      } else {
        stack := stack + [Top(stack) + [(k, 0)]];
        lbl := lbl + 1;
      }
    }

    method AtEnd(opt: bool, back: nat)
      requires stack != []
      modifies this
      ensures Now() == old(if opt then Conf(back, Pop(stack), Some(Top(stack)), writer.bits)
                           else Conf(lbl + 1, Pop(stack), last, writer.bits))
    {
      if opt {
        lbl := back;
        last := Some(Top(stack));
      } else {
        lbl := lbl + 1;
      }
      stack := Pop(stack);
    }

    /** Pushes the pointer to a simple element, writes what it points to, and pops it again. */
    method WriteThrough(cur: Ptr, leaf: Wire.Leaf)
      requires Deref(dom, cur).Some? && Deref(dom, cur).value.Val? && KindMatches(leaf, Deref(dom, cur).value.v)
      modifies this, writer
      ensures Now() == Conf(old(lbl), old(stack), old(last),
                            old(writer.bits) + EncodeLeaf(leaf, Deref(dom, cur).value.v))
    {
      ghost var before := stack;
      stack := stack + [cur];
      assert Pop(stack) == before;
      WriteLeaf(writer, leaf, Deref(dom, Top(stack)).value.v);
      stack := Pop(stack);
    }

    method AtMandatoryLeaf(k: nat, leaf: Wire.Leaf)
      requires stack != [] && StepLeaf(dom, Now(), false, k, leaf).Conf?
      modifies this, writer
      ensures Now() == old(StepLeaf(dom, Now(), false, k, leaf))
    {
      WriteThrough(Top(stack) + [(k, 0)], leaf);
      lbl := lbl + 1;
    }

    /** The inner loop over an optional simple element, as i' - i steps of a run that halts after n. */
    method AtOptionalLeaf(k: nat, leaf: Wire.Leaf, ghost start: Conf, ghost n: nat, ghost i: nat) returns (ghost i': nat)
      requires lbl < |table| && table[lbl] == State.Leaf(table[lbl].tag, true, k, leaf)
      requires Run(Stepper(table, dom), start, i) == Now()
      requires Run(Stepper(table, dom), start, n).Conf? && Run(Stepper(table, dom), start, n).lbl >= |table|
      modifies this, writer
      ensures Run(Stepper(table, dom), start, i') == Now() && i < i'
    {
      i' := i;
      Progress(table, dom, start, n, i);
      var cur := Next(k);
      while cur.Some?
        invariant i <= i' < n && lbl == old(lbl) && stack == old(stack) && stack != []
        invariant Run(Stepper(table, dom), start, i') == Now()
        invariant ListAt(dom, Top(stack), k).Some? && cur == Next(k)
        invariant StepLeaf(dom, Now(), true, k, leaf).Conf?
        decreases n - i'
      {
        writer.WriteTrue();
        WriteThrough(cur.value, leaf);
        last := cur;
        Progress(table, dom, start, n, i');
        i' := i' + 1;
        Progress(table, dom, start, n, i');
        cur := Next(k);
      }
      Progress(table, dom, start, n, i');
      last := None;
      writer.WriteFalse();
      lbl := lbl + 1;
      i' := i' + 1;
    }

    /** The switch loop: ends in the configuration the run halts in. */
    method Loop(ghost start: Conf, ghost n: nat)
      requires start == Now()
      requires Run(Stepper(table, dom), start, n).Conf? && Run(Stepper(table, dom), start, n).lbl >= |table|
      modifies this, writer
      ensures Now() == Run(Stepper(table, dom), start, n)
    {
      ghost var i: nat := 0;
      while lbl < |table|
        invariant Run(Stepper(table, dom), start, i) == Now()
        decreases n - i
      {
        Progress(table, dom, start, n, i);
        ghost var before := i;
        match table[lbl] {
          case Root(_) =>
            lbl := lbl + 1;
            i := i + 1;
          case Begin(_, opt, k, exit, _) =>
            AtBegin(opt, k, exit);
            i := i + 1;
          case Leaf(_, opt, k, leaf) =>
            if opt {
              i := AtOptionalLeaf(k, leaf, start, n, i);
            } else {
              AtMandatoryLeaf(k, leaf);
              i := i + 1;
            }
          case End(_, opt, back) =>
            AtEnd(opt, back);
            i := i + 1;
        }
        assert before < i;
      }
      HaltsOnce(Stepper(table, dom), start, n, i);
    }
  }

  /** *_dom2bin_run: for every structure whose lists hold at most one occurrence, exactly its encoding is
      appended to what the writer holds. */
  method Dom2BinRun(table: seq<State>, ghost s: Schema, dom: Dom, writer: BitWriter)
    requires Laid(table, s) && Conforms(s, dom) && Small(s, dom)
    modifies writer
    ensures writer.bits == old(writer.bits) + Encode(s, dom)
  {
    var automaton := new Automaton(table, dom, writer);
    ghost var start := Start(writer.bits);
    DocumentWritten(table, dom, s, writer.bits);
    ghost var n: nat :| Run(Stepper(table, dom), start, n)
                        == Conf(|table|, [], None, writer.bits + Encode(s, dom));
    automaton.Loop(start, n);
  }
}
