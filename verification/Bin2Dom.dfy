/** The *_bin2dom automata: bits are read and written in place through a pointer stack into a zeroed structure. */
module Bin2Dom {
  import opened Options
  import opened Bits
  import opened Wire
  import opened Automata
  import opened Pointers
  import opened Runs

  /** The label, the stack, the structure being filled and the bits not read yet.
      `Fail` is a read past the end; `Crash` is an access through the NULL that a full add_* returns. */
  datatype Conf = Conf(lbl: nat, stack: seq<Ptr>, dom: Dom, bits: seq<bool>) | Fail | Crash

  /** The generated add_* functions: the structure with one more (zeroed) occurrence, or NULL when the slot is full. */
  function Add(dom: Dom, p: Ptr, k: nat, zero: Dom): Option<(Dom, Ptr)> {
    match ListAt(dom, p, k)
    case None => None
    case Some(list) =>
      if |list| < 1
      then
        var slots := Deref(dom, p).value.slots;
        Some((Store(dom, p, Struct(slots[k := list + [zero]])), p + [(k, |list|)]))
      else None
  }

  function Step(table: seq<State>, c: Conf): Conf {
    if !c.Conf? || c.lbl >= |table| then c
    else if c.stack == [] && !table[c.lbl].Root? then Crash
    else
      match table[c.lbl]
      case Root(_) => c.(lbl := c.lbl + 1)
      case Begin(_, opt, k, exit, shape) => StepBegin(c, opt, k, exit, Zero(shape))
      case Leaf(_, opt, k, leaf) => if opt then StepOptionalLeaf(c, k, leaf) else StepLeaf(c, k, leaf)
      case End(_, opt, back) => Conf(if opt then back else c.lbl + 1, Pop(c.stack), c.dom, c.bits)
  }

  function StepBegin(c: Conf, opt: bool, k: nat, exit: nat, zero: Dom): Conf
    requires c.Conf? && c.stack != []
  {
    if !opt then Conf(c.lbl + 1, c.stack + [Top(c.stack) + [(k, 0)]], c.dom, c.bits)
    else if c.bits == [] then Fail
    else if !c.bits[0] then Conf(exit, c.stack, c.dom, c.bits[1..])
    else
      match Add(c.dom, Top(c.stack), k, zero)
      case None => Crash
      case Some((dom, next)) => Conf(c.lbl + 1, c.stack + [next], dom, c.bits[1..])
  }

  function StepLeaf(c: Conf, k: nat, leaf: Wire.Leaf): Conf
    requires c.Conf? && c.stack != []
  {
    var cur := Top(c.stack) + [(k, 0)];
    if Deref(c.dom, cur).None? then Crash
    else if |c.bits| < LeafWidth(leaf) then Fail
    else Conf(c.lbl + 1, c.stack, Store(c.dom, cur, Val(DecodeLeaf(leaf, c.bits[..LeafWidth(leaf)]))),
              c.bits[LeafWidth(leaf)..])
  }

  /** One turn of the loop over an optional simple element. */
  function StepOptionalLeaf(c: Conf, k: nat, leaf: Wire.Leaf): Conf
    requires c.Conf? && c.stack != []
  {
    if c.bits == [] then Fail
    else if !c.bits[0] then Conf(c.lbl + 1, c.stack, c.dom, c.bits[1..])
    else
      match Add(c.dom, Top(c.stack), k, Val(ZeroLeaf(leaf)))
      case None => Crash
      case Some((dom, next)) =>
        var bits := c.bits[1..];
        if Deref(dom, next).None? then Crash
        else if |bits| < LeafWidth(leaf) then Fail
        else Conf(c.lbl, c.stack, Store(dom, next, Val(DecodeLeaf(leaf, bits[..LeafWidth(leaf)]))),
                  bits[LeafWidth(leaf)..])
  }

  function Stepper(table: seq<State>): Conf -> Conf {
    (c: Conf) => Step(table, c)
  }

  // ---------------------------------------------------------------- what a run reads

  /** The configuration in which field k has been read with outcome r. */
  function ListGoal(lbl: nat, stack: seq<Ptr>, dom: Dom, p: Ptr, slots: seq<seq<Dom>>, k: nat,
                    r: Parsed<seq<Dom>>): Conf
    requires Deref(dom, p).Some? && k < |slots|
  {
    match r
    case Ok(list, rest) => Conf(lbl, stack, Store(dom, p, Struct(slots[k := list])), rest)
    case Eof => Fail
    case Full => Crash
  }

  /** The configuration in which the fields from number k on have been read with outcome r. */
  function FieldsGoal(lbl: nat, stack: seq<Ptr>, dom: Dom, p: Ptr, slots: seq<seq<Dom>>, k: nat,
                      r: Parsed<seq<seq<Dom>>>): Conf
    requires Deref(dom, p).Some? && k <= |slots|
  {
    match r
    case Ok(more, rest) => Conf(lbl, stack, Store(dom, p, Struct(slots[..k] + more)), rest)
    case Eof => Fail
    case Full => Crash
  }

  /** The structure after an occurrence in field k was added and filled with v is the structure with list [v]. */
  lemma Filled(dom: Dom, p: Ptr, slots: seq<seq<Dom>>, k: nat, zero: Dom, v: Dom)
    requires Deref(dom, p) == Some(Struct(slots)) && k < |slots|
    ensures var dom1 := Store(dom, p, Struct(slots[k := [zero]]));
            && Deref(dom1, p) == Some(Struct(slots[k := [zero]]))
            && Deref(dom1, p + [(k, 0)]) == Some(zero)
            && Store(dom1, p + [(k, 0)], v) == Store(dom, p, Struct(slots[k := [v]]))
  {
    var dom1 := Store(dom, p, Struct(slots[k := [zero]]));
    DerefStore(dom, p, Struct(slots[k := [zero]]));
    DerefMember(dom1, p, k, 0);
    StoreMember(dom1, p, k, 0, v);
    assert [zero][0 := v] == [v];
    assert slots[k := [zero]][k := [v]] == slots[k := [v]];
    StoreStore(dom, p, Struct(slots[k := [zero]]), Struct(slots[k := [v]]));
  }

  /** The last turn of an optional element that has been read once: only a 0 bit is legal. */
  lemma Retried(table: seq<State>, sub: Schema, k: nat, b: nat, st: seq<Ptr>, p: Ptr, dom: Dom,
                slots: seq<seq<Dom>>, d: Dom, bits: seq<bool>)
    requires LaidElement(table, true, sub, k, b)
    requires Deref(dom, p) == Some(Struct(slots)) && k < |slots| && slots[k] == [d]
    ensures Reaches(Stepper(table), Conf(b, st + [p], dom, bits),
                    match ParseList(sub, bits, true, 1)
                    case Ok(_, rest) => Conf(b + Size(sub), st + [p], dom, rest)
                    case Eof => Fail
                    case Full => Crash)
  {
    var step := Stepper(table);
    var c := Conf(b, st + [p], dom, bits);
    Here(step, step(c));
    After(step, c, step(c));
  }

  /** A present element: from behind its continuation bit to the configuration in which the list holds it. */
  lemma {:induction false} OccurrenceRead(table: seq<State>, opt: bool, sub: Schema, k: nat, b: nat, st: seq<Ptr>,
                                          p: Ptr, dom: Dom, slots: seq<seq<Dom>>, bits: seq<bool>)
    requires LaidElement(table, opt, sub, k, b) && sub.Complex?
    requires Deref(dom, p) == Some(Struct(slots)) && k < |slots|
    ensures var dom1 := Store(dom, p, Struct(slots[k := [Zero(sub)]]));
            Reaches(Stepper(table), Conf(b + 1, st + [p] + [p + [(k, 0)]], dom1, bits),
                    match Parse(sub, bits, true)
                    case Ok(d, rest) =>
                      Conf(if opt then b else b + Size(sub), st + [p], Store(dom, p, Struct(slots[k := [d]])), rest)
                    case Eof => Fail
                    case Full => Crash)
    decreases sub, 0
  {
    var step := Stepper(table);
    var zero := Zero(sub);
    var dom1 := Store(dom, p, Struct(slots[k := [zero]]));
    var q := p + [(k, 0)];
    var c := Conf(b + 1, st + [p] + [q], dom1, bits);
    Filled(dom, p, slots, k, zero, zero);
    assert zero.slots[0..] == ZeroFields(sub.fields);
    FieldsRead(table, sub.fields, 0, b + 1, st + [p], q, dom1, zero.slots, bits);
    var r := ParseFields(sub.fields, bits, true);
    if r.Ok? {
      assert zero.slots[..0] + r.v == r.v;
      Filled(dom, p, slots, k, zero, Struct(r.v));
      var c2 := Conf(b + Size(sub) - 1, st + [p] + [q], Store(dom, p, Struct(slots[k := [Struct(r.v)]])), r.rest);
      assert Pop(c2.stack) == st + [p];
      Here(step, step(c2));
      After(step, c2, step(c2));
      Then(step, c, c2, step(c2));
    }
  }

  /** From the first state of an element to the state after it, or to the failure that Parse predicts. */
  lemma {:induction false} ElementRead(table: seq<State>, opt: bool, sub: Schema, k: nat, b: nat, st: seq<Ptr>,
                                       p: Ptr, dom: Dom, slots: seq<seq<Dom>>, bits: seq<bool>)
    requires LaidElement(table, opt, sub, k, b)
    requires Deref(dom, p) == Some(Struct(slots)) && k < |slots| && slots[k] == ZeroSlot(opt, sub)
    ensures Reaches(Stepper(table), Conf(b, st + [p], dom, bits),
                    ListGoal(b + Size(sub), st + [p], dom, p, slots, k, ParseSlot(opt, sub, bits, true)))
    decreases sub, 3
  {
    var step := Stepper(table);
    var c := Conf(b, st + [p], dom, bits);
    if opt && (bits == [] || !bits[0]) {
      assert slots[k := []] == slots;
      StoreSame(dom, p);
      assert step(c) == ListGoal(b + Size(sub), st + [p], dom, p, slots, k, ParseList(sub, bits, true, 0));
      Here(step, step(c));
      After(step, c, step(c));
    } else if opt {
      OptionalRead(table, sub, k, b, st, p, dom, slots, bits);
    } else {
      MandatoryRead(table, sub, k, b, st, p, dom, slots, bits);
    }
  }

  /** The first occurrence of an optional element, back at its first state. */
  lemma {:induction false} FirstRead(table: seq<State>, sub: Schema, k: nat, b: nat, st: seq<Ptr>,
                                     p: Ptr, dom: Dom, slots: seq<seq<Dom>>, bits: seq<bool>)
    requires LaidElement(table, true, sub, k, b) && bits != [] && bits[0]
    requires Deref(dom, p) == Some(Struct(slots)) && k < |slots| && slots[k] == []
    ensures Reaches(Stepper(table), Conf(b, st + [p], dom, bits),
                    match Parse(sub, bits[1..], true)
                    case Ok(d, rest) => Conf(b, st + [p], Store(dom, p, Struct(slots[k := [d]])), rest)
                    case Eof => Fail
                    case Full => Crash)
    decreases sub, 1
  {
    var step := Stepper(table);
    var c := Conf(b, st + [p], dom, bits);
    var zero := Zero(sub);
    assert slots[k] + [zero] == [zero];
    var r := Parse(sub, bits[1..], true);
    if sub.Complex? {
      OccurrenceRead(table, true, sub, k, b, st, p, dom, slots, bits[1..]);
      After(step, c, match r
                     case Ok(d, rest) => Conf(b, st + [p], Store(dom, p, Struct(slots[k := [d]])), rest)
                     case Eof => Fail
                     case Full => Crash);
    } else {
      Filled(dom, p, slots, k, zero, if r.Ok? then r.v else zero);
      Here(step, step(c));
      After(step, c, step(c));
    }
  }

  lemma {:induction false} OptionalRead(table: seq<State>, sub: Schema, k: nat, b: nat, st: seq<Ptr>,
                                        p: Ptr, dom: Dom, slots: seq<seq<Dom>>, bits: seq<bool>)
    requires LaidElement(table, true, sub, k, b) && bits != [] && bits[0]
    requires Deref(dom, p) == Some(Struct(slots)) && k < |slots| && slots[k] == []
    ensures Reaches(Stepper(table), Conf(b, st + [p], dom, bits),
                    ListGoal(b + Size(sub), st + [p], dom, p, slots, k, ParseList(sub, bits, true, 0)))
    decreases sub, 2
  {
    FirstRead(table, sub, k, b, st, p, dom, slots, bits);
    var r := Parse(sub, bits[1..], true);
    if r.Ok? {
      var dom2 := Store(dom, p, Struct(slots[k := [r.v]]));
      DerefStore(dom, p, Struct(slots[k := [r.v]]));
      Retried(table, sub, k, b, st, p, dom2, slots[k := [r.v]], r.v, r.rest);
      assert [r.v] + [] == [r.v];
      Then(Stepper(table), Conf(b, st + [p], dom, bits), Conf(b, st + [p], dom2, r.rest),
           ListGoal(b + Size(sub), st + [p], dom, p, slots, k, ParseList(sub, bits, true, 0)));
    }
  }

  lemma {:induction false} MandatoryRead(table: seq<State>, sub: Schema, k: nat, b: nat, st: seq<Ptr>,
                                         p: Ptr, dom: Dom, slots: seq<seq<Dom>>, bits: seq<bool>)
    requires LaidElement(table, false, sub, k, b)
    requires Deref(dom, p) == Some(Struct(slots)) && k < |slots| && slots[k] == [Zero(sub)]
    ensures Reaches(Stepper(table), Conf(b, st + [p], dom, bits),
                    ListGoal(b + Size(sub), st + [p], dom, p, slots, k, ParseSlot(false, sub, bits, true)))
    decreases sub, 1
  {
    var step := Stepper(table);
    var c := Conf(b, st + [p], dom, bits);
    var zero := Zero(sub);
    assert slots[k := [zero]] == slots;
    StoreSame(dom, p);
    Filled(dom, p, slots, k, zero, zero);
    var goal := ListGoal(b + Size(sub), st + [p], dom, p, slots, k, ParseSlot(false, sub, bits, true));
    var r := Parse(sub, bits, true);
    if sub.Complex? {
      assert step(c) == Conf(b + 1, st + [p] + [p + [(k, 0)]], dom, bits);
      OccurrenceRead(table, false, sub, k, b, st, p, dom, slots, bits);
    } else {
      if r.Ok? {
        Filled(dom, p, slots, k, zero, r.v);
      }
      Here(step, goal);
      assert step(c) == goal;
    }
    After(step, c, goal);
  }

  /** The fields of a structure from number k on, all still zeroed. */
  lemma {:induction false} FieldsRead(table: seq<State>, fs: Fields, k: nat, b: nat, st: seq<Ptr>,
                                      p: Ptr, dom: Dom, slots: seq<seq<Dom>>, bits: seq<bool>)
    requires LaidFields(table, fs, k, b)
    requires Deref(dom, p) == Some(Struct(slots)) && k <= |slots| && slots[k..] == ZeroFields(fs)
    ensures Reaches(Stepper(table), Conf(b, st + [p], dom, bits),
                    FieldsGoal(b + SizeFields(fs), st + [p], dom, p, slots, k, ParseFields(fs, bits, true)))
    decreases fs, 0
  {
    var step := Stepper(table);
    var c := Conf(b, st + [p], dom, bits);
    match fs
    case Done =>
      assert slots[..k] + [] == slots;
      StoreSame(dom, p);
      Here(step, c);
    case Field(opt, sub, rest) =>
      assert slots[k] == slots[k..][0];
      ElementRead(table, opt, sub, k, b, st, p, dom, slots, bits);
      var r := ParseSlot(opt, sub, bits, true);
      if r.Ok? {
        var slots1 := slots[k := r.v];
        var dom1 := Store(dom, p, Struct(slots1));
        DerefStore(dom, p, Struct(slots1));
        assert slots1[k + 1..] == slots[k..][1..];
        FieldsRead(table, rest, k + 1, b + Size(sub), st, p, dom1, slots1, r.rest);
        var r2 := ParseFields(rest, r.rest, true);
        var goal := FieldsGoal(b + SizeFields(fs), st + [p], dom, p, slots, k, ParseFields(fs, bits, true));
        if r2.Ok? {
          assert slots1[..k + 1] + r2.v == slots[..k] + ([r.v] + r2.v);
          StoreStore(dom, p, Struct(slots1), Struct(slots[..k] + ([r.v] + r2.v)));
        }
        Then(step, c, Conf(b + Size(sub), st + [p], dom1, r.rest), goal);
      }
  }

  function Start(s: Schema, bits: seq<bool>): Conf {
    Conf(0, [[]], Zero(s), bits)
  }

  function DocumentGoal(table: seq<State>, r: Parsed<Dom>): Conf {
    match r
    case Ok(d, rest) => Conf(|table|, [], d, rest)
    case Eof => Fail
    case Full => Crash
  }

  /** From the start state, on every bit stream, the run ends as Parse says. */
  lemma DocumentRead(table: seq<State>, s: Schema, bits: seq<bool>)
    requires Laid(table, s)
    ensures Reaches(Stepper(table), Start(s, bits), DocumentGoal(table, Parse(s, bits, true)))
  {
    var step := Stepper(table);
    var slots := ZeroFields(s.fields);
    var root: Ptr := [];
    var c1 := Conf(1, [root], Zero(s), bits);
    assert [] + [root] == [root];
    assert slots[0..] == slots;
    FieldsRead(table, s.fields, 0, 1, [], root, Zero(s), slots, bits);
    var r := ParseFields(s.fields, bits, true);
    var goal := DocumentGoal(table, Parse(s, bits, true));
    if r.Ok? {
      assert slots[..0] + r.v == r.v;
      var c2 := Conf(|table| - 1, [root], Struct(r.v), r.rest);
      assert step(c2) == goal;
      Here(step, goal);
      After(step, c2, goal);
      Then(step, c1, c2, goal);
    }
    assert step(Start(s, bits)) == c1;
    After(step, Start(s, bits), goal);
  }

  // ---------------------------------------------------------------- the automaton

  /** How a step or a run ended. */
  datatype Outcome = Fine | EndOfInput | NullPointer

  ghost predicate Ends(r: Outcome, c: Conf, now: Conf) {
    match r
    case Fine => c == now
    case EndOfInput => c == Fail
    case NullPointer => c == Crash
  }

  lemma Progress(table: seq<State>, start: Conf, n: nat, i: nat)
    requires Step(table, Run(Stepper(table), start, n)) == Run(Stepper(table), start, n)
    requires Run(Stepper(table), start, i).Conf? && Run(Stepper(table), start, i).lbl < |table|
    ensures i < n
    ensures Run(Stepper(table), start, i + 1) == Step(table, Run(Stepper(table), start, i))
    ensures !Step(table, Run(Stepper(table), start, i)).Conf?
            ==> Run(Stepper(table), start, n) == Step(table, Run(Stepper(table), start, i))
  {
    var step := Stepper(table);
    var c := Run(step, start, i);
    RunNext(step, start, i);
    assert step(c) != c;
    NotYet(step, start, n, i);
    if !step(c).Conf? {
      HaltsOnce(step, start, n, i + 1);
    }
  }

  method ReadLeaf(reader: BitReader, leaf: Wire.Leaf) returns (ok: bool, v: Value)
    modifies reader
    ensures ok == (|old(reader.rest)| >= LeafWidth(leaf))
    ensures ok ==> v == DecodeLeaf(leaf, old(reader.rest)[..LeafWidth(leaf)])
    ensures ok ==> reader.rest == old(reader.rest)[LeafWidth(leaf)..]
  {
    match leaf
    case IntLeaf(signed, cbits, offset, width) =>
      var c;
      ok, c := reader.ReadBits(width);
      v := Int(Cast(signed, cbits, c + offset));
    case TimeLeaf(secs, _, fracs) =>
      ghost var bits := reader.rest;
      var sec, frac := 0, 0;
      ok, sec := reader.ReadBits(secs);
      if ok {
        ok, frac := reader.ReadBits(fracs);
        assert ok ==> bits[secs..][..fracs] == bits[..secs + fracs][secs..];
        assert ok ==> bits[secs..][fracs..] == bits[secs + fracs..];
        assert ok ==> bits[..secs] == bits[..secs + fracs][..secs];
      }
      v := Time(sec, 16 * frac);
  }

  class Automaton {
    const table: seq<State>
    const reader: BitReader
    var lbl: nat
    var stack: seq<Ptr>
    var dom: Dom

    ghost function Now(): Conf
      reads this, reader
    {
      Conf(lbl, stack, dom, reader.rest)
    }

    constructor (table: seq<State>, zeroed: Dom, reader: BitReader)
      ensures this.table == table && this.reader == reader
      ensures Now() == Conf(0, [[]], zeroed, reader.rest)
    {
      this.table, this.reader := table, reader;
      lbl, stack, dom := 0, [[]], zeroed;
    }

    method AtBegin(opt: bool, k: nat, exit: nat, zero: Dom) returns (r: Outcome)
      requires stack != []
      modifies this, reader
      ensures Ends(r, old(StepBegin(Now(), opt, k, exit, zero)), Now())
    {
      if !opt {
        stack := stack + [Top(stack) + [(k, 0)]];
        lbl := lbl + 1;
        return Fine;
      }
      var ok, bit := reader.ReadBit();
      if !ok {
        return EndOfInput;
      }
      if bit {
        var next := Add(dom, Top(stack), k, zero);
        if next.None? {
          return NullPointer;
        }
        dom := next.value.0;
        stack := stack + [next.value.1];
        lbl := lbl + 1;
      } else {
        lbl := exit;
      }
      return Fine;
    }

    method AtEnd(opt: bool, back: nat)
      requires stack != []
      modifies this
      ensures Now() == old(Conf(if opt then back else lbl + 1, Pop(stack), dom, reader.rest))
    {
      lbl := if opt then back else lbl + 1;
      stack := Pop(stack);
    }

    /** Pushes a pointer to a simple element, reads into it, and pops it again. */
    method ReadThrough(cur: Ptr, leaf: Wire.Leaf) returns (ok: bool)
      requires Deref(dom, cur).Some?
      modifies this, reader
      ensures ok == (|old(reader.rest)| >= LeafWidth(leaf))
      ensures ok ==> Now() == Conf(old(lbl), old(stack),
                                   Store(old(dom), cur, Val(DecodeLeaf(leaf, old(reader.rest)[..LeafWidth(leaf)]))),
                                   old(reader.rest)[LeafWidth(leaf)..])
    {
      ghost var before := stack;
      stack := stack + [cur];
      assert Pop(stack) == before;
      var v;
      ok, v := ReadLeaf(reader, leaf);
      if ok {
        dom := Store(dom, Top(stack), Val(v));
      }
      stack := Pop(stack);
    }

    method AtMandatoryLeaf(k: nat, leaf: Wire.Leaf) returns (r: Outcome)
      requires stack != []
      modifies this, reader
      ensures Ends(r, old(StepLeaf(Now(), k, leaf)), Now())
    {
      var cur := Top(stack) + [(k, 0)];
      if Deref(dom, cur).None? {
        return NullPointer;
      }
      var ok := ReadThrough(cur, leaf);
      if !ok {
        return EndOfInput;
      }
      lbl := lbl + 1;
      return Fine;
    }

    /** One evaluation of `while (read_bit(reader))` and, if it holds, of the loop body. */
    method LeafTurn(k: nat, leaf: Wire.Leaf) returns (r: Outcome, again: bool)
      requires stack != []
      modifies this, reader
      ensures Ends(r, old(StepOptionalLeaf(Now(), k, leaf)), Now())
      ensures r.Fine? ==> stack == old(stack) && lbl == if again then old(lbl) else old(lbl) + 1
    {
      again := false;
      var ok, bit := reader.ReadBit();
      if !ok {
        return EndOfInput, false;
      }
      if !bit {
        lbl := lbl + 1;
        return Fine, false;
      }
      var next := Add(dom, Top(stack), k, Val(ZeroLeaf(leaf)));
      if next.None? || Deref(next.value.0, next.value.1).None? {
        return NullPointer, false;
      }
      dom := next.value.0;
      ok := ReadThrough(next.value.1, leaf);
      return if ok then Fine else EndOfInput, ok;
    }

    /** The loop over an optional simple element, as i' - i steps of a run that halts after n. */
    method AtOptionalLeaf(k: nat, leaf: Wire.Leaf, ghost start: Conf, ghost n: nat, ghost i: nat)
      returns (r: Outcome, ghost i': nat)
      requires stack != [] && lbl < |table| && table[lbl] == State.Leaf(table[lbl].tag, true, k, leaf)
      requires Run(Stepper(table), start, i) == Now()
      requires Step(table, Run(Stepper(table), start, n)) == Run(Stepper(table), start, n)
      modifies this, reader
      ensures r.Fine? ==> i < i' && Run(Stepper(table), start, i') == Now()
      ensures !r.Fine? ==> Ends(r, Run(Stepper(table), start, n), Now())
    {
      i' := i;
      Progress(table, start, n, i');
      var again;
      r, again := LeafTurn(k, leaf);
      i' := i' + 1;
      while r.Fine? && again
        invariant i < i' && (r.Fine? ==> stack == old(stack) && (again ==> lbl == old(lbl)))
        invariant r.Fine? ==> Run(Stepper(table), start, i') == Now()
        invariant !r.Fine? ==> Ends(r, Run(Stepper(table), start, n), Now())
        decreases n - i', again
      {
        Progress(table, start, n, i');
        r, again := LeafTurn(k, leaf);
        i' := i' + 1;
      }
    }

    /** The switch loop: ends as the run ends. */
    method Loop(ghost start: Conf, ghost n: nat) returns (r: Outcome)
      requires start == Now()
      requires Step(table, Run(Stepper(table), start, n)) == Run(Stepper(table), start, n)
      modifies this, reader
      ensures Ends(r, Run(Stepper(table), start, n), Now())
    {
      ghost var i: nat := 0;
      r := Fine;
      while r.Fine? && lbl < |table|
        invariant r.Fine? ==> Run(Stepper(table), start, i) == Now()
        invariant !r.Fine? ==> Ends(r, Run(Stepper(table), start, n), Now())
        decreases r.Fine?, n - i
      {
        Progress(table, start, n, i);
        ghost var before := i;
        i := i + 1;
        if stack == [] && !table[lbl].Root? {
          r := NullPointer;
        } else {
          match table[lbl] {
            case Root(_) =>
              lbl := lbl + 1;
            case Begin(_, opt, k, exit, shape) =>
              r := AtBegin(opt, k, exit, Zero(shape));
            case Leaf(_, opt, k, leaf) =>
              if opt {
                r, i := AtOptionalLeaf(k, leaf, start, n, before);
              } else {
                r := AtMandatoryLeaf(k, leaf);
              }
            case End(_, opt, back) =>
              AtEnd(opt, back);
          }
        }
      }
      if r.Fine? {
        HaltsOnce(Stepper(table), start, n, i);
      }
    }
  }

  /** *_bin2dom_run: on every bit stream, repeated elements included, the run ends as Parse predicts; when it
      returns, the structure is the tree parsed and the reader stands behind the last bit of it. */
  method Bin2DomRun(table: seq<State>, s: Schema, reader: BitReader) returns (r: Outcome, dom: Dom)
    requires Laid(table, s)
    modifies reader
    ensures match Parse(s, old(reader.rest), true)
            case Ok(d, rest) => r == Fine && dom == d && reader.rest == rest
            case Eof => r == EndOfInput
            case Full => r == NullPointer
  {
    var automaton := new Automaton(table, Zero(s), reader);
    ghost var start := Start(s, reader.rest);
    ghost var goal := DocumentGoal(table, Parse(s, reader.rest, true));
    DocumentRead(table, s, reader.rest);
    ghost var n: nat :| Run(Stepper(table), start, n) == goal;
    r := automaton.Loop(start, n);
    dom := automaton.dom;
  }
}
