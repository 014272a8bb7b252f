/** The *_sax2bin automaton: XML events are consumed and bits are written. */
module Sax2Bin {
  import opened Sequences
  import opened Bits
  import opened Wire
  import opened Automata
  import opened Runs
  import opened Events
  import Dom2Bin

  /** The label, the events left and the bits written. `Reject` is the return of -1. */
  datatype Conf = Conf(lbl: nat, ev: seq<Event>, bits: seq<bool>) | Reject

  function Step(table: seq<State>, clock: Clock, c: Conf): Conf {
    if !c.Conf? || c.lbl >= |table| then c
    else
      match table[c.lbl]
      case Root(tag) => if IsOpen(c.ev, tag) then Conf(c.lbl + 1, c.ev[1..], c.bits) else Reject
      case Begin(tag, opt, _, exit, _) => StepBegin(c, tag, opt, exit)
      case Leaf(tag, opt, _, leaf) => StepLeaf(c, tag, opt, leaf, clock)
      case End(tag, opt, back) =>
        if IsClose(c.ev, tag) then Conf(if opt then back else c.lbl + 1, c.ev[1..], c.bits) else Reject
  }

  function StepBegin(c: Conf, tag: string, opt: bool, exit: nat): Conf
    requires c.Conf?
  {
    if IsOpen(c.ev, tag) then Conf(c.lbl + 1, c.ev[1..], c.bits + if opt then [true] else [])
    else if opt then Conf(exit, c.ev, c.bits + [false])
    else Reject
  }

  /** A mandatory simple element, or one turn of the loop over an optional one. */
  function StepLeaf(c: Conf, tag: string, opt: bool, leaf: Wire.Leaf, clock: Clock): Conf
    requires c.Conf?
  {
    if IsOpen(c.ev, tag) then
      var ev := c.ev[1..];
      var rest := AfterText(ev);
      var code := EncodeLeaf(leaf, TextValue(leaf, ev, clock));
      if IsClose(rest, tag)
      then Conf(if opt then c.lbl else c.lbl + 1, rest[1..], c.bits + (if opt then [true] else []) + code)
      else Reject
    else if opt then Conf(c.lbl + 1, c.ev, c.bits + [false])
    else Reject
  }

  function Stepper(table: seq<State>, clock: Clock): Conf -> Conf {
    (c: Conf) => Step(table, clock, c)
  }

  // ---------------------------------------------------------------- what a run writes

  function ListGoal(lbl: nat, bits: seq<bool>, opt: bool, sub: Schema, r: Reading<seq<Dom>>): Conf {
    if r.Got? then Conf(lbl, r.rest, bits + EncodeSlot(opt, sub, r.v)) else Reject
  }

  function FieldsGoal(lbl: nat, bits: seq<bool>, fs: Fields, r: Reading<seq<seq<Dom>>>): Conf {
    if r.Got? then Conf(lbl, r.rest, bits + EncodeFields(fs, r.v)) else Reject
  }

  function ElementGoal(lbl: nat, bits: seq<bool>, s: Schema, r: Reading<Dom>): Conf {
    if r.Got? then Conf(lbl, r.rest, bits + Encode(s, r.v)) else Reject
  }

  /** An element whose start tag comes next. */
  lemma {:induction false} OccurrenceConverted(table: seq<State>, clock: Clock, opt: bool, sub: Schema, k: nat, b: nat,
                                               ev: seq<Event>, bits: seq<bool>)
    requires LaidElement(table, opt, sub, k, b) && IsOpen(ev, sub.tag)
    ensures Reaches(Stepper(table, clock), Conf(b, ev, bits),
                    ElementGoal(if opt then b else b + Size(sub), bits + Mark(opt), sub, Accept(sub, ev[1..], clock)))
    decreases |ev|, sub, 0
  {
    var step := Stepper(table, clock);
    var c := Conf(b, ev, bits);
    var goal := ElementGoal(if opt then b else b + Size(sub), bits + Mark(opt), sub, Accept(sub, ev[1..], clock));
    if sub.Complex? {
      var c1 := Conf(b + 1, ev[1..], bits + Mark(opt));
      FieldsConverted(table, clock, sub.fields, 0, b + 1, ev[1..], bits + Mark(opt));
      var r := AcceptFields(sub.fields, ev[1..], clock);
      if r.Got? {
        var c2 := Conf(b + Size(sub) - 1, r.rest, bits + Mark(opt) + EncodeFields(sub.fields, r.v));
        assert step(c2) == goal;
        Here(step, goal);
        After(step, c2, goal);
        Then(step, c1, c2, goal);
      }
      assert step(c) == c1;
    } else {
      assert step(c) == goal;
      Here(step, goal);
    }
    After(step, c, goal);
  }

  lemma {:induction false} ListConverted(table: seq<State>, clock: Clock, sub: Schema, k: nat, b: nat,
                                         ev: seq<Event>, bits: seq<bool>)
    requires LaidElement(table, true, sub, k, b)
    ensures Reaches(Stepper(table, clock), Conf(b, ev, bits),
                    ListGoal(b + Size(sub), bits, true, sub, AcceptList(sub, ev, clock)))
    decreases |ev|, sub, 1
  {
    var step := Stepper(table, clock);
    var c := Conf(b, ev, bits);
    var goal := ListGoal(b + Size(sub), bits, true, sub, AcceptList(sub, ev, clock));
    if IsOpen(ev, sub.tag) {
      OccurrenceConverted(table, clock, true, sub, k, b, ev, bits);
      var r := Accept(sub, ev[1..], clock);
      if r.Got? {
        var bits1 := bits + [true] + Encode(sub, r.v);
        ListConverted(table, clock, sub, k, b, r.rest, bits1);
        var r2 := AcceptList(sub, r.rest, clock);
        if r2.Got? {
          assert bits1 + EncodeList(sub, r2.v) == bits + EncodeList(sub, [r.v] + r2.v) by {
            ListCons(sub, r.v, r2.v);
            Assoc(bits, [true], Encode(sub, r.v));
            Assoc(bits, [true] + Encode(sub, r.v), EncodeList(sub, r2.v));
          }
        }
        Then(step, c, Conf(b, r.rest, bits1), goal);
      }
    } else {
      assert EncodeSlot(true, sub, []) == [false];
      assert step(c) == goal;
      Here(step, goal);
      After(step, c, goal);
    }
  }

  lemma {:induction false} MandatoryConverted(table: seq<State>, clock: Clock, sub: Schema, k: nat, b: nat,
                                              ev: seq<Event>, bits: seq<bool>)
    requires LaidElement(table, false, sub, k, b)
    ensures Reaches(Stepper(table, clock), Conf(b, ev, bits),
                    ListGoal(b + Size(sub), bits, false, sub, AcceptSlot(false, sub, ev, clock)))
    decreases |ev|, sub, 1
  {
    var step := Stepper(table, clock);
    var c := Conf(b, ev, bits);
    if IsOpen(ev, sub.tag) {
      OccurrenceConverted(table, clock, false, sub, k, b, ev, bits);
      assert bits + Mark(false) == bits;
    } else {
      assert step(c) == Reject;
      Here(step, Reject);
      After(step, c, Reject);
    }
  }

  lemma {:induction false} FieldsConverted(table: seq<State>, clock: Clock, fs: Fields, k: nat, b: nat,
                                           ev: seq<Event>, bits: seq<bool>)
    requires LaidFields(table, fs, k, b)
    ensures Reaches(Stepper(table, clock), Conf(b, ev, bits),
                    FieldsGoal(b + SizeFields(fs), bits, fs, AcceptFields(fs, ev, clock)))
    decreases |ev|, fs, 0
  {
    var step := Stepper(table, clock);
    var c := Conf(b, ev, bits);
    match fs
    case Done =>
      assert bits + [] == bits;
      Here(step, c);
    case Field(opt, sub, rest) =>
      if opt {
        ListConverted(table, clock, sub, k, b, ev, bits);
      } else {
        MandatoryConverted(table, clock, sub, k, b, ev, bits);
      }
      var r := AcceptSlot(opt, sub, ev, clock);
      if r.Got? {
        var bits1 := bits + EncodeSlot(opt, sub, r.v);
        FieldsConverted(table, clock, rest, k + 1, b + Size(sub), r.rest, bits1);
        var r2 := AcceptFields(rest, r.rest, clock);
        if r2.Got? {
          assert bits1 + EncodeFields(rest, r2.v) == bits + EncodeFields(fs, [r.v] + r2.v) by {
            FieldsCons(opt, sub, rest, r.v, r2.v);
            Assoc(bits, EncodeSlot(opt, sub, r.v), EncodeFields(rest, r2.v));
          }
        }
        Then(step, c, Conf(b + Size(sub), r.rest, bits1),
             FieldsGoal(b + SizeFields(fs), bits, fs, AcceptFields(fs, ev, clock)));
      }
  }

  lemma DocumentConverted(table: seq<State>, clock: Clock, s: Schema, ev: seq<Event>, bits: seq<bool>)
    requires Laid(table, s)
    ensures Reaches(Stepper(table, clock), Conf(0, ev, bits),
                    ElementGoal(|table|, bits, s, AcceptDocument(s, ev, clock)))
  {
    var step := Stepper(table, clock);
    var goal := ElementGoal(|table|, bits, s, AcceptDocument(s, ev, clock));
    if IsOpen(ev, s.tag) {
      var c1 := Conf(1, ev[1..], bits);
      FieldsConverted(table, clock, s.fields, 0, 1, ev[1..], bits);
      var r := AcceptFields(s.fields, ev[1..], clock);
      if r.Got? {
        var c2 := Conf(|table| - 1, r.rest, bits + EncodeFields(s.fields, r.v));
        assert step(c2) == goal;
        Here(step, goal);
        After(step, c2, goal);
        Then(step, c1, c2, goal);
      }
    } else {
      Here(step, goal);
    }
    After(step, Conf(0, ev, bits), goal);
  }

  // ---------------------------------------------------------------- the automaton

  lemma Progress(table: seq<State>, clock: Clock, start: Conf, n: nat, i: nat)
    requires Step(table, clock, Run(Stepper(table, clock), start, n)) == Run(Stepper(table, clock), start, n)
    requires Run(Stepper(table, clock), start, i).Conf? && Run(Stepper(table, clock), start, i).lbl < |table|
    ensures i < n
    ensures Run(Stepper(table, clock), start, i + 1) == Step(table, clock, Run(Stepper(table, clock), start, i))
    ensures Step(table, clock, Run(Stepper(table, clock), start, i)).Reject?
            ==> Run(Stepper(table, clock), start, n) == Reject
  {
    var step := Stepper(table, clock);
    var c := Run(step, start, i);
    RunNext(step, start, i);
    assert step(c).Reject? || step(c).lbl == c.lbl + 1 || |step(c).ev| < |c.ev| || |step(c).bits| > |c.bits|;
    NotYet(step, start, n, i);
    if step(c).Reject? {
      HaltsOnce(step, start, n, i + 1);
    }
  }

  /** The soap stream read from, and the writer. */
  class Automaton {
    const table: seq<State>
    const clock: Clock
    const writer: BitWriter
    var lbl: nat
    var ev: seq<Event>

    ghost function Now(): Conf
      reads this, writer
    {
      Conf(lbl, ev, writer.bits)
    }

    constructor (table: seq<State>, clock: Clock, ev: seq<Event>, writer: BitWriter)
      ensures this.table == table && this.clock == clock && this.writer == writer && Now() == Conf(0, ev, writer.bits)
    {
      this.table, this.clock, this.writer, this.lbl, this.ev := table, clock, writer, 0, ev;
    }

    /** soap_element_begin_in: consumes the next event exactly if it opens `tag`. */
    method BeginIn(tag: string) returns (ok: bool)
      modifies this`ev
      ensures ok == IsOpen(old(ev), tag)
      ensures ev == if ok then old(ev)[1..] else old(ev)
    {
      ok := IsOpen(ev, tag);
      if ok {
        ev := ev[1..];
      }
    }

    /** soap_element_end_in: fails unless the next event closes `tag`. */
    method EndIn(tag: string) returns (ok: bool)
      modifies this`ev
      ensures ok == IsClose(old(ev), tag)
      ensures ev == if ok then old(ev)[1..] else old(ev)
    {
      ok := IsClose(ev, tag);
      if ok {
        ev := ev[1..];
      }
    }

    method AtBegin(tag: string, opt: bool, exit: nat) returns (ok: bool)
      modifies this, writer
      ensures old(StepBegin(Now(), tag, opt, exit)) == if ok then Now() else Reject
    {
      ok := BeginIn(tag);
      if ok {
        if opt {
          writer.WriteTrue();
        }
        lbl := lbl + 1;
      } else if opt {
        lbl := exit;
        writer.WriteFalse();
        ok := true;
      }
    }

    /** The text and the end tag of a simple element. When the text of a time does not parse nothing is
        written; when that of a number does not, the variable it was to be stored in is. */
    method LeafBody(tag: string, leaf: Wire.Leaf) returns (ok: bool)
      modifies this`ev, writer
      ensures ok == IsClose(AfterText(old(ev)), tag)
      ensures ok ==> ev == AfterText(old(ev))[1..]
      ensures writer.bits == old(writer.bits) + EncodeLeaf(leaf, TextValue(leaf, old(ev), clock))
    {
      var v := TextValue(leaf, ev, clock);
      ev := AfterText(ev);
      if v == Lost {
        assert writer.bits + [] == writer.bits;
      } else {
        Dom2Bin.WriteLeaf(writer, leaf, v);
      }
      ok := EndIn(tag);
    }

    method AtMandatoryLeaf(tag: string, leaf: Wire.Leaf) returns (ok: bool)
      modifies this, writer
      ensures old(StepLeaf(Now(), tag, false, leaf, clock)) == if ok then Now() else Reject
    {
      ok := BeginIn(tag);
      if ok {
        assert writer.bits + [] == writer.bits;
        ok := LeafBody(tag, leaf);
        lbl := lbl + 1;
      }
    }

    /** One turn of the loop, behind the start tag: one step of a run that halts after n. */
    method LeafTurn(tag: string, leaf: Wire.Leaf, ghost start: Conf, ghost n: nat, ghost i: nat, ghost c: Conf) returns (ok: bool)
      requires lbl < |table| && table[lbl].Leaf? && table[lbl] == State.Leaf(tag, true, table[lbl].slot, leaf)
      requires Run(Stepper(table, clock), start, i) == c && c.Conf? && IsOpen(c.ev, tag)
      requires c.lbl == lbl && c.bits == writer.bits && ev == c.ev[1..]
      requires Step(table, clock, Run(Stepper(table, clock), start, n)) == Run(Stepper(table, clock), start, n)
      modifies this`ev, writer
      ensures i < n
      ensures if ok then Run(Stepper(table, clock), start, i + 1) == Now()
              else Run(Stepper(table, clock), start, n) == Reject
    {
      Progress(table, clock, start, n, i);
      writer.WriteTrue();
      ok := LeafBody(tag, leaf);
    }

    /** The loop over an optional simple element, as i' - i steps of a run that halts after n. */
    method AtOptionalLeaf(tag: string, leaf: Wire.Leaf, ghost start: Conf, ghost n: nat, ghost i: nat)
      returns (ok: bool, ghost i': nat)
      requires lbl < |table| && table[lbl].Leaf? && table[lbl] == State.Leaf(tag, true, table[lbl].slot, leaf)
      requires Run(Stepper(table, clock), start, i) == Now()
      requires Step(table, clock, Run(Stepper(table, clock), start, n)) == Run(Stepper(table, clock), start, n)
      modifies this, writer
      ensures if ok then i < i' && Run(Stepper(table, clock), start, i') == Now()
              else Run(Stepper(table, clock), start, n) == Reject
    {
      i' := i;
      Progress(table, clock, start, n, i');
      var more := BeginIn(tag);
      while more
        invariant i <= i' < n && lbl == old(lbl)
        invariant Run(Stepper(table, clock), start, i').Conf?
        invariant ghost var c := Run(Stepper(table, clock), start, i');
                  c.lbl == lbl && c.bits == writer.bits && more == IsOpen(c.ev, tag)
                  && ev == if more then c.ev[1..] else c.ev
        decreases n - i'
      {
        ok := LeafTurn(tag, leaf, start, n, i', Run(Stepper(table, clock), start, i'));
        if !ok {
          return;
        }
        i' := i' + 1;
        Progress(table, clock, start, n, i');
        more := BeginIn(tag);
      }
      Progress(table, clock, start, n, i');
      writer.WriteFalse();
      lbl := lbl + 1;
      i' := i' + 1;
      ok := true;
    }

    /** The switch loop: ends as the run ends. */
    method Loop(ghost start: Conf, ghost n: nat) returns (ok: bool)
      requires start == Now()
      requires Step(table, clock, Run(Stepper(table, clock), start, n)) == Run(Stepper(table, clock), start, n)
      modifies this, writer
      ensures Run(Stepper(table, clock), start, n) == if ok then Now() else Reject
    {
      ghost var i: nat := 0;
      ok := true;
      while ok && lbl < |table|
        invariant if ok then Run(Stepper(table, clock), start, i) == Now()
                  else Run(Stepper(table, clock), start, n) == Reject
        decreases ok, n - i
      {
        Progress(table, clock, start, n, i);
        ghost var before := i;
        i := i + 1;
        match table[lbl] {
          case Root(tag) =>
            ok := BeginIn(tag);
            lbl := lbl + 1;
          case Begin(tag, opt, _, exit, _) =>
            ok := AtBegin(tag, opt, exit);
          case Leaf(tag, opt, _, leaf) =>
            if opt {
              ok, i := AtOptionalLeaf(tag, leaf, start, n, before);
            } else {
              ok := AtMandatoryLeaf(tag, leaf);
            }
          case End(tag, opt, back) =>
            ok := EndIn(tag);
            lbl := if opt then back else lbl + 1;
        }
      }
      if ok {
        HaltsOnce(Stepper(table, clock), start, n, i);
      }
    }
  }

  /** *_sax2bin_run: on every event list the run accepts exactly what AcceptDocument accepts, and the bits
      written are the encoding of the tree it reads. `clock` is what the never assigned tv_usec holds. */
  method Sax2BinRun(table: seq<State>, ghost s: Schema, ev: seq<Event>, clock: Clock, writer: BitWriter)
    returns (ok: bool, rest: seq<Event>)
    requires Laid(table, s)
    modifies writer
    ensures ok == AcceptDocument(s, ev, clock).Got?
    ensures ok ==> rest == AcceptDocument(s, ev, clock).rest
    ensures ok ==> writer.bits == old(writer.bits) + Encode(s, AcceptDocument(s, ev, clock).v)
  {
    var automaton := new Automaton(table, clock, ev, writer);
    ghost var start := Conf(0, ev, writer.bits);
    ghost var goal := ElementGoal(|table|, writer.bits, s, AcceptDocument(s, ev, clock));
    DocumentConverted(table, clock, s, ev, writer.bits);
    ghost var n: nat :| Run(Stepper(table, clock), start, n) == goal;
    ok := automaton.Loop(start, n);
    rest := automaton.ev;
  }
}
