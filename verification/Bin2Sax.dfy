/** The *_bin2sax automata: bits are read and XML events are put out. There is no capacity here:
    elements may repeat as often as the bits say. */
module Bin2Sax {
  import opened Sequences
  import opened Bits
  import opened Wire
  import opened Automata
  import opened Runs
  import opened Events
  import Bin2Dom

  /** The label, the bits not read yet and the events put out. `Fail` is a read past the end. */
  datatype Conf = Conf(lbl: nat, bits: seq<bool>, out: seq<Event>) | Fail

  function Step(table: seq<State>, c: Conf): Conf {
    if !c.Conf? || c.lbl >= |table| then c
    else
      match table[c.lbl]
      case Root(tag) => Conf(c.lbl + 1, c.bits, c.out + [Open(tag)])
      case Begin(tag, opt, _, exit, _) => StepBegin(c, tag, opt, exit)
      case Leaf(tag, opt, _, leaf) => if opt then StepOptionalLeaf(c, tag, leaf) else StepLeaf(c, tag, leaf)
      case End(tag, opt, back) => Conf(if opt then back else c.lbl + 1, c.bits, c.out + [Close(tag)])
  }

  function StepBegin(c: Conf, tag: string, opt: bool, exit: nat): Conf
    requires c.Conf?
  {
    if !opt then Conf(c.lbl + 1, c.bits, c.out + [Open(tag)])
    else if c.bits == [] then Fail
    else if c.bits[0] then Conf(c.lbl + 1, c.bits[1..], c.out + [Open(tag)])
    else Conf(exit, c.bits[1..], c.out)
  }

  function StepLeaf(c: Conf, tag: string, leaf: Wire.Leaf): Conf
    requires c.Conf?
  {
    if |c.bits| < LeafWidth(leaf) then Fail
    else Conf(c.lbl + 1, c.bits[LeafWidth(leaf)..],
              c.out + [Open(tag), Text(DecodeLeaf(leaf, c.bits[..LeafWidth(leaf)])), Close(tag)])
  }

  function StepOptionalLeaf(c: Conf, tag: string, leaf: Wire.Leaf): Conf
    requires c.Conf?
  {
    if c.bits == [] then Fail
    else if !c.bits[0] then Conf(c.lbl + 1, c.bits[1..], c.out)
    else
      var bits := c.bits[1..];
      if |bits| < LeafWidth(leaf) then Fail
      else Conf(c.lbl, bits[LeafWidth(leaf)..],
                c.out + [Open(tag), Text(DecodeLeaf(leaf, bits[..LeafWidth(leaf)])), Close(tag)])
  }

  function Stepper(table: seq<State>): Conf -> Conf {
    (c: Conf) => Step(table, c)
  }

  // ---------------------------------------------------------------- what a run prints

  function ListGoal(lbl: nat, out: seq<Event>, sub: Schema, r: Parsed<seq<Dom>>): Conf {
    if r.Ok? then Conf(lbl, r.rest, out + RenderList(sub, r.v)) else Fail
  }

  function FieldsGoal(lbl: nat, out: seq<Event>, fs: Fields, r: Parsed<seq<seq<Dom>>>): Conf {
    if r.Ok? then Conf(lbl, r.rest, out + RenderFields(fs, r.v)) else Fail
  }

  function ElementGoal(lbl: nat, out: seq<Event>, s: Schema, r: Parsed<Dom>): Conf {
    if r.Ok? then Conf(lbl, r.rest, out + Render(s, r.v)) else Fail
  }

  /** A present structure, from behind its start tag. */
  lemma {:induction false} BodyPrinted(table: seq<State>, opt: bool, sub: Schema, k: nat, b: nat,
                                       bits: seq<bool>, out: seq<Event>)
    requires LaidElement(table, opt, sub, k, b) && sub.Complex?
    ensures Reaches(Stepper(table), Conf(b + 1, bits, out + [Open(sub.tag)]),
                    ElementGoal(if opt then b else b + Size(sub), out, sub, Parse(sub, bits, false)))
    decreases |bits|, sub, 0
  {
    var step := Stepper(table);
    var c := Conf(b + 1, bits, out + [Open(sub.tag)]);
    FieldsPrinted(table, sub.fields, 0, b + 1, bits, out + [Open(sub.tag)]);
    var r := ParseFields(sub.fields, bits, false);
    if r.Ok? {
      var c2 := Conf(b + Size(sub) - 1, r.rest, out + [Open(sub.tag)] + RenderFields(sub.fields, r.v));
      var goal := ElementGoal(if opt then b else b + Size(sub), out, sub, Parse(sub, bits, false));
      assert step(c2) == goal by {
        assert out + [Open(sub.tag)] + RenderFields(sub.fields, r.v) + [Close(sub.tag)]
               == out + Render(sub, Struct(r.v));
      }
      Here(step, goal);
      After(step, c2, goal);
      Then(step, c, c2, goal);
    }
  }

  /** The occurrences of an optional element, up to and including the 0 bit behind the last one. */
  lemma {:induction false} ListPrinted(table: seq<State>, sub: Schema, k: nat, b: nat,
                                       bits: seq<bool>, out: seq<Event>, have: nat)
    requires LaidElement(table, true, sub, k, b)
    ensures Reaches(Stepper(table), Conf(b, bits, out),
                    ListGoal(b + Size(sub), out, sub, ParseList(sub, bits, false, have)))
    decreases |bits|, sub, 1
  {
    var step := Stepper(table);
    var c := Conf(b, bits, out);
    var goal := ListGoal(b + Size(sub), out, sub, ParseList(sub, bits, false, have));
    if bits == [] || !bits[0] {
      assert out + [] == out;
      Here(step, goal);
      assert step(c) == goal;
      After(step, c, goal);
    } else {
      OccurrencePrinted(table, sub, k, b, bits, out);
      var r := Parse(sub, bits[1..], false);
      if r.Ok? {
        ListPrinted(table, sub, k, b, r.rest, out + Render(sub, r.v), have + 1);
        var r2 := ParseList(sub, r.rest, false, have + 1);
        if r2.Ok? {
          RenderListCons(sub, r.v, r2.v);
          Assoc(out, Render(sub, r.v), RenderList(sub, r2.v));
        }
        Then(step, c, Conf(b, r.rest, out + Render(sub, r.v)), goal);
      }
    }
  }

  lemma {:induction false} OccurrencePrinted(table: seq<State>, sub: Schema, k: nat, b: nat,
                                             bits: seq<bool>, out: seq<Event>)
    requires LaidElement(table, true, sub, k, b) && bits != [] && bits[0]
    ensures Reaches(Stepper(table), Conf(b, bits, out), ElementGoal(b, out, sub, Parse(sub, bits[1..], false)))
    decreases |bits|, sub, 0
  {
    var step := Stepper(table);
    var c := Conf(b, bits, out);
    var goal := ElementGoal(b, out, sub, Parse(sub, bits[1..], false));
    if sub.Complex? {
      assert step(c) == Conf(b + 1, bits[1..], out + [Open(sub.tag)]);
      BodyPrinted(table, true, sub, k, b, bits[1..], out);
    } else {
      assert step(c) == goal;
      Here(step, goal);
    }
    After(step, c, goal);
  }

  lemma {:induction false} MandatoryPrinted(table: seq<State>, sub: Schema, k: nat, b: nat,
                                            bits: seq<bool>, out: seq<Event>)
    requires LaidElement(table, false, sub, k, b)
    ensures Reaches(Stepper(table), Conf(b, bits, out),
                    ElementGoal(b + Size(sub), out, sub, Parse(sub, bits, false)))
    decreases |bits|, sub, 1
  {
    var step := Stepper(table);
    var c := Conf(b, bits, out);
    var goal := ElementGoal(b + Size(sub), out, sub, Parse(sub, bits, false));
    if sub.Complex? {
      assert step(c) == Conf(b + 1, bits, out + [Open(sub.tag)]);
      BodyPrinted(table, false, sub, k, b, bits, out);
    } else {
      assert step(c) == goal;
      Here(step, goal);
    }
    After(step, c, goal);
  }

  lemma {:induction false} SlotPrinted(table: seq<State>, opt: bool, sub: Schema, k: nat, b: nat,
                                       bits: seq<bool>, out: seq<Event>)
    requires LaidElement(table, opt, sub, k, b)
    ensures Reaches(Stepper(table), Conf(b, bits, out),
                    ListGoal(b + Size(sub), out, sub, ParseSlot(opt, sub, bits, false)))
    decreases |bits|, sub, 2
  {
    if opt {
      ListPrinted(table, sub, k, b, bits, out, 0);
    } else {
      MandatoryPrinted(table, sub, k, b, bits, out);
      var r := Parse(sub, bits, false);
      if r.Ok? {
        RenderListCons(sub, r.v, []);
      }
    }
  }

  /** What the fields print: the first of them, and the others behind it. */
  lemma GoalCons(lbl: nat, out: seq<Event>, opt: bool, sub: Schema, rest: Fields, list: seq<Dom>, r: Parsed<seq<seq<Dom>>>)
    ensures FieldsGoal(lbl, out + RenderList(sub, list), rest, r) ==
            FieldsGoal(lbl, out, Field(opt, sub, rest), if r.Ok? then Ok([list] + r.v, r.rest) else r)
  {
    if r.Ok? {
      assert ([list] + r.v)[1..] == r.v;
      Assoc(out, RenderList(sub, list), RenderFields(rest, r.v));
    }
  }

  lemma {:induction false} FieldsPrinted(table: seq<State>, fs: Fields, k: nat, b: nat,
                                         bits: seq<bool>, out: seq<Event>)
    requires LaidFields(table, fs, k, b)
    ensures Reaches(Stepper(table), Conf(b, bits, out),
                    FieldsGoal(b + SizeFields(fs), out, fs, ParseFields(fs, bits, false)))
    decreases |bits|, fs, 0
  {
    var step := Stepper(table);
    var c := Conf(b, bits, out);
    match fs
    case Done =>
      assert out + [] == out;
      Here(step, c);
    case Field(opt, sub, rest) =>
      var r := ParseSlot(opt, sub, bits, false);
      SlotPrinted(table, opt, sub, k, b, bits, out);
      if r.Ok? {
        var out1 := out + RenderList(sub, r.v);
        FieldsPrinted(table, rest, k + 1, b + Size(sub), r.rest, out1);
        GoalCons(b + SizeFields(fs), out, opt, sub, rest, r.v, ParseFields(rest, r.rest, false));
        Then(step, c, Conf(b + Size(sub), r.rest, out1),
             FieldsGoal(b + SizeFields(fs), out, fs, ParseFields(fs, bits, false)));
      }
  }

  lemma DocumentPrinted(table: seq<State>, s: Schema, bits: seq<bool>, out: seq<Event>)
    requires Laid(table, s)
    ensures Reaches(Stepper(table), Conf(0, bits, out), ElementGoal(|table|, out, s, Parse(s, bits, false)))
  {
    var step := Stepper(table);
    var c1 := Conf(1, bits, out + [Open(s.tag)]);
    var goal := ElementGoal(|table|, out, s, Parse(s, bits, false));
    FieldsPrinted(table, s.fields, 0, 1, bits, out + [Open(s.tag)]);
    var r := ParseFields(s.fields, bits, false);
    if r.Ok? {
      var c2 := Conf(|table| - 1, r.rest, out + [Open(s.tag)] + RenderFields(s.fields, r.v));
      assert step(c2) == goal by {
        assert out + [Open(s.tag)] + RenderFields(s.fields, r.v) + [Close(s.tag)] == out + Render(s, Struct(r.v));
      }
      Here(step, goal);
      After(step, c2, goal);
      Then(step, c1, c2, goal);
    }
    assert step(Conf(0, bits, out)) == c1;
    After(step, Conf(0, bits, out), goal);
  }

  // ---------------------------------------------------------------- the automaton

  lemma Progress(table: seq<State>, start: Conf, n: nat, i: nat)
    requires Step(table, Run(Stepper(table), start, n)) == Run(Stepper(table), start, n)
    requires Run(Stepper(table), start, i).Conf? && Run(Stepper(table), start, i).lbl < |table|
    ensures i < n
    ensures Run(Stepper(table), start, i + 1) == Step(table, Run(Stepper(table), start, i))
    ensures Step(table, Run(Stepper(table), start, i)).Fail? ==> Run(Stepper(table), start, n) == Fail
  {
    var step := Stepper(table);
    var c := Run(step, start, i);
    RunNext(step, start, i);
    assert step(c).Fail? || step(c).lbl == c.lbl + 1 || |step(c).bits| < |c.bits| || |step(c).out| > |c.out|;
    NotYet(step, start, n, i);
    if step(c).Fail? {
      HaltsOnce(step, start, n, i + 1);
    }
  }

  /** The soap stream written to, and the reader. */
  class Automaton {
    const table: seq<State>
    const reader: BitReader
    var lbl: nat
    var out: seq<Event>

    ghost function Now(): Conf
      reads this, reader
    {
      Conf(lbl, reader.rest, out)
    }

    constructor (table: seq<State>, reader: BitReader, out: seq<Event>)
      ensures this.table == table && this.reader == reader && Now() == Conf(0, reader.rest, out)
    {
      this.table, this.reader, this.lbl, this.out := table, reader, 0, out;
    }

    method AtBegin(tag: string, opt: bool, exit: nat) returns (ok: bool)
      modifies this, reader
      ensures old(StepBegin(Now(), tag, opt, exit)) == if ok then Now() else Fail
    {
      var bit := true;
      ok := true;
      if opt {
        ok, bit := reader.ReadBit();
      }
      if !ok {
        return;
      }
      if bit {
        out := out + [Open(tag)];
        lbl := lbl + 1;
      } else {
        lbl := exit;
      }
    }

    method PrintLeaf(tag: string, leaf: Wire.Leaf) returns (ok: bool)
      modifies this, reader
      ensures ok == (|old(reader.rest)| >= LeafWidth(leaf)) && lbl == old(lbl)
      ensures ok ==> reader.rest == old(reader.rest)[LeafWidth(leaf)..]
      ensures ok ==> out == old(out) + [Open(tag), Text(DecodeLeaf(leaf, old(reader.rest)[..LeafWidth(leaf)])), Close(tag)]
    {
      var v;
      ok, v := Bin2Dom.ReadLeaf(reader, leaf);
      if ok {
        out := out + [Open(tag), Text(v), Close(tag)];
      }
    }

    /** One turn of the loop, behind the continuation bit: one step of a run that halts after n. */
    method LeafTurn(tag: string, leaf: Wire.Leaf, ghost start: Conf, ghost n: nat, ghost i: nat, ghost c: Conf) returns (ok: bool)
      requires lbl < |table| && table[lbl].Leaf? && table[lbl] == State.Leaf(tag, true, table[lbl].slot, leaf)
      requires Run(Stepper(table), start, i) == c && c.Conf? && c.lbl == lbl && c.out == out
      requires c.bits != [] && c.bits[0] && c.bits[1..] == reader.rest
      requires Step(table, Run(Stepper(table), start, n)) == Run(Stepper(table), start, n)
      modifies this, reader
      ensures i < n && lbl == old(lbl)
      ensures if ok then Run(Stepper(table), start, i + 1) == Now() else Run(Stepper(table), start, n) == Fail
    {
      Progress(table, start, n, i);
      ok := PrintLeaf(tag, leaf);
    }

    /** The loop over an optional simple element, as i' - i steps of a run that halts after n. */
    method AtOptionalLeaf(tag: string, leaf: Wire.Leaf, ghost start: Conf, ghost n: nat, ghost i: nat)
      returns (ok: bool, ghost i': nat)
      requires lbl < |table| && table[lbl].Leaf? && table[lbl] == State.Leaf(tag, true, table[lbl].slot, leaf)
      requires Run(Stepper(table), start, i) == Now()
      requires Step(table, Run(Stepper(table), start, n)) == Run(Stepper(table), start, n)
      modifies this, reader
      ensures if ok then i < i' && Run(Stepper(table), start, i') == Now()
              else Run(Stepper(table), start, n) == Fail
    {
      i' := i;
      Progress(table, start, n, i');
      var bit;
      ok, bit := reader.ReadBit();
      while ok && bit
        invariant i <= i' < n && lbl == old(lbl)
        invariant Run(Stepper(table), start, i').Conf?
        invariant ghost var c := Run(Stepper(table), start, i');
                  c.lbl == lbl && c.out == out && ok == (c.bits != [])
                  && (ok ==> c.bits[0] == bit && c.bits[1..] == reader.rest)
        decreases ok, n - i'
      {
        ok := LeafTurn(tag, leaf, start, n, i', Run(Stepper(table), start, i'));
        if !ok {
          return;
        }
        i' := i' + 1;
        Progress(table, start, n, i');
        ok, bit := reader.ReadBit();
      }
      Progress(table, start, n, i');
      lbl := lbl + 1;
      i' := i' + 1;
    }

    /** The switch loop: ends as the run ends. */
    method Loop(ghost start: Conf, ghost n: nat) returns (ok: bool)
      requires start == Now()
      requires Step(table, Run(Stepper(table), start, n)) == Run(Stepper(table), start, n)
      modifies this, reader
      ensures Run(Stepper(table), start, n) == if ok then Now() else Fail
    {
      ghost var i: nat := 0;
      ok := true;
      while ok && lbl < |table|
        invariant if ok then Run(Stepper(table), start, i) == Now() else Run(Stepper(table), start, n) == Fail
        decreases ok, n - i
      {
        Progress(table, start, n, i);
        ghost var before := i;
        i := i + 1;
        match table[lbl] {
          case Root(tag) =>
            out := out + [Open(tag)];
            lbl := lbl + 1;
          case Begin(tag, opt, _, exit, _) =>
            ok := AtBegin(tag, opt, exit);
          case Leaf(tag, opt, _, leaf) =>
            if opt {
              ok, i := AtOptionalLeaf(tag, leaf, start, n, before);
            } else {
              ok := PrintLeaf(tag, leaf);
              lbl := lbl + 1;
            }
          case End(tag, opt, back) =>
            lbl := if opt then back else lbl + 1;
            out := out + [Close(tag)];
        }
      }
      if ok {
        HaltsOnce(Stepper(table), start, n, i);
      }
    }
  }

  /** *_bin2sax_run: on every bit stream, repeated elements included, the events put out are the printed form
      of the tree parsed; the run fails exactly when Parse runs out of bits. */
  method Bin2SaxRun(table: seq<State>, ghost s: Schema, reader: BitReader, sent: seq<Event>)
    returns (ok: bool, out: seq<Event>)
    requires Laid(table, s)
    modifies reader
    ensures match Parse(s, old(reader.rest), false)
            case Ok(d, rest) => ok && out == sent + Render(s, d) && reader.rest == rest
            case _ => !ok
  {
    var automaton := new Automaton(table, reader, sent);
    ghost var start := Conf(0, reader.rest, sent);
    ghost var goal := ElementGoal(|table|, sent, s, Parse(s, reader.rest, false));
    DocumentPrinted(table, s, reader.rest, sent);
    ghost var n: nat :| Run(Stepper(table), start, n) == goal;
    ok := automaton.Loop(start, n);
    out := automaton.out;
  }
}
