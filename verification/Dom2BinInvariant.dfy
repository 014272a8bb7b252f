/** What holds at every label a *_dom2bin automaton reaches, and for which structures it returns at all. */
module Dom2BinInvariant {
  import opened Options
  import opened Wire
  import opened Automata
  import opened Pointers
  import opened Runs
  import opened Dom2Bin
  import opened Dom2BinBits

  // ---------------------------------------------------------------- the stack is fixed by the label

  /** The stack with which the state before label `lbl` falls through to it. */
  function StackAt(table: seq<State>, lbl: nat): seq<Ptr>
    requires lbl <= |table|
  {
    if lbl == 0 then [[]]
    else
      var st := StackAt(table, lbl - 1);
      match table[lbl - 1]
      case Begin(_, _, k, _, _) => if st == [] then [] else st + [Top(st) + [(k, 0)]]
      case End(_, _, _) => if st == [] then [] else Pop(st)
      case _ => st
  }

  /** The jumps of the state at `lbl` agree with falling through. */
  ghost predicate JumpsAgree(table: seq<State>, lbl: nat)
    requires lbl < |table|
  {
    match table[lbl]
    case Begin(_, _, _, exit, _) =>
      exit <= |table| && StackAt(table, lbl) != [] && StackAt(table, exit) == StackAt(table, lbl)
    case End(_, true, back) =>
      && back < lbl && StackAt(table, back) != []
      && table[back].Begin? && table[back].opt
      && StackAt(table, lbl) == StackAt(table, back) + [Top(StackAt(table, back)) + [(table[back].slot, 0)]]
    case _ => true
  }

  lemma PopPushed(st: seq<Ptr>, p: Ptr)
    ensures st + [p] != [] && Pop(st + [p]) == st
  {
  }

  /** The two end states of a structure, given that its fields leave the stack as it was. */
  lemma StructureBalanced(table: seq<State>, opt: bool, s: Schema, k: nat, b: nat)
    requires LaidElement(table, opt, s, k, b) && s.Complex? && StackAt(table, b) != []
    requires StackAt(table, b + Size(s) - 1) == StackAt(table, b) + [Top(StackAt(table, b)) + [(k, 0)]]
    ensures StackAt(table, b + Size(s)) == StackAt(table, b)
    ensures JumpsAgree(table, b) && JumpsAgree(table, b + Size(s) - 1)
  {
    var st := StackAt(table, b);
    PopPushed(st, Top(st) + [(k, 0)]);
    assert StackAt(table, b + Size(s)) == Pop(StackAt(table, b + Size(s) - 1));
  }

  lemma {:induction false} ElementBalanced(table: seq<State>, opt: bool, s: Schema, k: nat, b: nat)
    requires LaidElement(table, opt, s, k, b) && StackAt(table, b) != []
    ensures StackAt(table, b + Size(s)) == StackAt(table, b)
    ensures forall l :: b <= l < b + Size(s) ==> JumpsAgree(table, l)
    decreases s
  {
    if s.Complex? {
      Pushed(table, opt, s, k, b);
      FieldsBalanced(table, s.fields, 0, b + 1);
      StructureBalanced(table, opt, s, k, b);
    }
  }

  lemma Pushed(table: seq<State>, opt: bool, s: Schema, k: nat, b: nat)
    requires LaidElement(table, opt, s, k, b) && s.Complex? && StackAt(table, b) != []
    ensures StackAt(table, b + 1) == StackAt(table, b) + [Top(StackAt(table, b)) + [(k, 0)]]
    ensures StackAt(table, b + 1) != []
  {
  }

  lemma {:induction false} FieldsBalanced(table: seq<State>, fs: Fields, k: nat, b: nat)
    requires LaidFields(table, fs, k, b) && b + SizeFields(fs) <= |table| && StackAt(table, b) != []
    ensures StackAt(table, b + SizeFields(fs)) == StackAt(table, b)
    ensures forall l :: b <= l < b + SizeFields(fs) ==> JumpsAgree(table, l)
    decreases fs
  {
    match fs
    case Done =>
    case Field(opt, sub, rest) =>
      ElementBalanced(table, opt, sub, k, b);
      FieldsBalanced(table, rest, k + 1, b + Size(sub));
  }

  lemma TableBalanced(table: seq<State>, s: Schema)
    requires Laid(table, s)
    ensures forall l :: 0 <= l < |table| ==> JumpsAgree(table, l)
    ensures StackAt(table, |table|) == []
  {
    assert StackAt(table, 1) == [[]];
    FieldsBalanced(table, s.fields, 0, 1);
    assert StackAt(table, |table| - 1) == [[]];
  }

  // ---------------------------------------------------------------- lists are short

  lemma {:induction false} SmallSlot(fs: Fields, slots: seq<seq<Dom>>, i: nat) returns (sub: Schema)
    requires ConformsFields(fs, slots) && SmallFields(fs, slots) && i < |slots|
    ensures |slots[i]| <= 1
    ensures slots[i] != [] ==> Conforms(sub, slots[i][0]) && Small(sub, slots[i][0])
    decreases fs
  {
    if i == 0 {
      sub := fs.sub;
    } else {
      sub := SmallSlot(fs.rest, slots[1..], i - 1);
    }
  }

  lemma {:induction false} SmallLists(s: Schema, dom: Dom, p: Ptr, k: nat)
    requires Conforms(s, dom) && Small(s, dom)
    ensures ListAt(dom, p, k).Some? ==> |ListAt(dom, p, k).value| <= 1
    decreases |p|
  {
    if dom.Struct? {
      if p == [] {
        if k < |dom.slots| {
          var _ := SmallSlot(s.fields, dom.slots, k);
        }
      } else if p[0].0 < |dom.slots| && p[0].1 < |dom.slots[p[0].0]| {
        var sub := SmallSlot(s.fields, dom.slots, p[0].0);
        SmallLists(sub, dom.slots[p[0].0][p[0].1], p[1..], k);
      }
    }
  }

  // ---------------------------------------------------------------- the invariant

  /** `last` is NULL, or the occurrence just written of the list that the state at the label iterates. */
  predicate LastFits(table: seq<State>, c: Conf)
    requires c.Conf?
  {
    c.last.None?
    || (&& c.lbl < |table| && c.stack != []
        && ((table[c.lbl].Begin? && table[c.lbl].opt) || (table[c.lbl].Leaf? && table[c.lbl].opt))
        && c.last == Some(Top(c.stack) + [(table[c.lbl].slot, 0)]))
  }

  predicate Inv(table: seq<State>, c: Conf) {
    c.Conf? && c.lbl <= |table| && c.stack == StackAt(table, c.lbl) && LastFits(table, c)
  }

  lemma StepKeepsInv(table: seq<State>, s: Schema, dom: Dom, c: Conf)
    requires Laid(table, s) && Conforms(s, dom) && Small(s, dom)
    requires Inv(table, c) && Step(table, dom, c).Conf?
    ensures Inv(table, Step(table, dom, c))
  {
    TableBalanced(table, s);
    if c.lbl < |table| {
      assert JumpsAgree(table, c.lbl);
      match table[c.lbl]
      case Begin(_, opt, k, _, _) => SmallLists(s, dom, Top(c.stack), k);
      case Leaf(_, opt, k, _) => SmallLists(s, dom, Top(c.stack), k);
      case End(_, opt, back) => assert Pop(StackAt(table, c.lbl)) == StackAt(table, if opt then back else c.lbl + 1);
      case Root(_) =>
    }
  }

  lemma {:induction false} BitsOnlyGrow(table: seq<State>, dom: Dom, c: Conf, n: nat)
    requires c.Conf? && Run(Stepper(table, dom), c, n).Conf?
    ensures c.bits <= Run(Stepper(table, dom), c, n).bits
    decreases n
  {
    if n > 0 {
      var d := Step(table, dom, c);
      if d.Crash? {
        RunHalted(Stepper(table, dom), d, n - 1);
      }
      BitsOnlyGrow(table, dom, d, n - 1);
    }
  }

  /** No configuration of a run that halts properly is a crash, and its bits are a beginning of the final ones. */
  lemma OnTheWay(table: seq<State>, dom: Dom, start: Conf, n: nat, i: nat)
    requires start.Conf?
    requires Run(Stepper(table, dom), start, n).Conf? && Run(Stepper(table, dom), start, n).lbl >= |table|
    ensures Run(Stepper(table, dom), start, i).Conf?
    ensures start.bits <= Run(Stepper(table, dom), start, i).bits <= Run(Stepper(table, dom), start, n).bits
  {
    var step := Stepper(table, dom);
    var c := Run(step, start, i);
    if c.Crash? || c.lbl >= |table| {
      HaltsOnce(step, start, n, i);
    } else {
      Progress(table, dom, start, n, i);
      RunAdd(step, start, i, n - i);
      BitsOnlyGrow(table, dom, c, n - i);
    }
    BitsOnlyGrow(table, dom, start, i);
  }

  /** After any number of steps: no invalid access has happened, the stack is the one its label fixes, `last`
      is NULL or the occurrence just written of the list the label iterates, and the bits written are the code
      of everything before the label, which is a beginning of the encoding of the whole structure. */
  lemma {:induction false} EveryLabel(table: seq<State>, s: Schema, dom: Dom, bits: seq<bool>, i: nat)
    requires Laid(table, s) && Conforms(s, dom) && Small(s, dom)
    ensures var c := Run(Stepper(table, dom), Start(bits), i);
            && Inv(table, c) && Present(s, dom, c.lbl, c.last.Some?)
            && c.bits == bits + Before(s, dom, c.lbl, c.last.Some?)
            && bits <= c.bits <= bits + Encode(s, dom)
    decreases i
  {
    var step, start := Stepper(table, dom), Start(bits);
    DocumentWritten(table, dom, s, bits);
    var n: nat :| Run(step, start, n) == Conf(|table|, [], None, bits + Encode(s, dom));
    OnTheWay(table, dom, start, n, i);
    EveryBit(table, s, dom, bits, i);
    if i > 0 {
      EveryLabel(table, s, dom, bits, i - 1);
      RunNext(step, start, i - 1);
      StepKeepsInv(table, s, dom, Run(step, start, i - 1));
    }
  }

  // ---------------------------------------------------------------- when the automaton returns at all

  predicate Stopped(table: seq<State>, c: Conf) {
    c.Conf? && c.lbl >= |table|
  }

  /** The run from c never returns: it goes on for ever, or crashes. */
  ghost predicate NeverStops(table: seq<State>, dom: Dom, c: Conf) {
    forall n: nat :: !Stopped(table, Run(Stepper(table, dom), c, n))
  }

  lemma NeverStopsAfter(table: seq<State>, dom: Dom, c: Conf, d: Conf)
    requires Reaches(Stepper(table, dom), c, d) && NeverStops(table, dom, d)
    ensures NeverStops(table, dom, c)
  {
    var step := Stepper(table, dom);
    var m: nat :| Run(step, c, m) == d;
    assert !Stopped(table, Run(step, d, 0));
    forall n: nat
      ensures !Stopped(table, Run(step, c, n))
    {
      if n >= m {
        RunAdd(step, c, m, n - m);
      } else if Stopped(table, Run(step, c, n)) {
        RunAdd(step, c, n, m - n);
        RunHalted(step, Run(step, c, n), m - n);
      }
    }
  }

  lemma NeverStopsStep(table: seq<State>, dom: Dom, c: Conf)
    requires NeverStops(table, dom, Step(table, dom, c))
    ensures NeverStops(table, dom, c)
  {
    Here(Stepper(table, dom), Step(table, dom, c));
    After(Stepper(table, dom), c, Step(table, dom, c));
    NeverStopsAfter(table, dom, c, Step(table, dom, c));
  }

  lemma CrashNeverStops(table: seq<State>, dom: Dom)
    ensures NeverStops(table, dom, Crash)
  {
    forall n: nat
      ensures !Stopped(table, Run(Stepper(table, dom), Crash, n))
    {
      RunHalted(Stepper(table, dom), Crash, n);
    }
  }

  /** A cursor that cannot be the last occurrence of any list inside the structure at p. */
  predicate Foreign(q: Ptr, p: Ptr) {
    q != [] && |q| <= |p|
  }

  /** The outcome of running through fields with a stale cursor: no return, or the end with the cursor
      cleared or still stale. */
  ghost predicate StaleOutcome(table: seq<State>, dom: Dom, c: Conf, lbl: nat, stack: seq<Ptr>, q: Ptr) {
    NeverStops(table, dom, c)
    || exists last, bits :: (last == None || last == Some(q)) && Reaches(Stepper(table, dom), c, Conf(lbl, stack, last, bits))
  }

  lemma StaleThen(table: seq<State>, dom: Dom, c: Conf, d: Conf, lbl: nat, stack: seq<Ptr>, q: Ptr)
    requires Reaches(Stepper(table, dom), c, d) && StaleOutcome(table, dom, d, lbl, stack, q)
    ensures StaleOutcome(table, dom, c, lbl, stack, q)
  {
    if NeverStops(table, dom, d) {
      NeverStopsAfter(table, dom, c, d);
    } else {
      var last, bits :| (last == None || last == Some(q))
                        && Reaches(Stepper(table, dom), d, Conf(lbl, stack, last, bits));
      Then(Stepper(table, dom), c, d, Conf(lbl, stack, last, bits));
    }
  }

  lemma {:induction false} StaleFields(table: seq<State>, dom: Dom, fs: Fields, k: nat, b: nat,
                                       st: seq<Ptr>, p: Ptr, slots: seq<seq<Dom>>, last: Option<Ptr>, q: Ptr, bits: seq<bool>)
    requires LaidFields(table, fs, k, b)
    requires Deref(dom, p) == Some(Struct(slots)) && k <= |slots|
    requires ConformsFields(fs, slots[k..]) && SmallFields(fs, slots[k..])
    requires Foreign(q, p) && (last == None || last == Some(q))
    ensures StaleOutcome(table, dom, Conf(b, st + [p], last, bits), b + SizeFields(fs), st + [p], q)
    decreases fs
  {
    var step := Stepper(table, dom);
    var c := Conf(b, st + [p], last, bits);
    match fs
    case Done =>
      Here(step, c);
    case Field(opt, sub, rest) =>
      assert slots[k..][1..] == slots[k + 1..];
      StaleElement(table, dom, opt, sub, k, b, st, p, slots[k], last, q, bits);
      if !NeverStops(table, dom, c) {
        var last', bits' :| (last' == None || last' == Some(q))
                            && Reaches(step, c, Conf(b + Size(sub), st + [p], last', bits'));
        StaleFields(table, dom, rest, k + 1, b + Size(sub), st, p, slots, last', q, bits');
        StaleThen(table, dom, c, Conf(b + Size(sub), st + [p], last', bits'), b + SizeFields(fs), st + [p], q);
      }
  }

  lemma {:induction false} StaleElement(table: seq<State>, dom: Dom, opt: bool, sub: Schema, k: nat, b: nat,
                                        st: seq<Ptr>, p: Ptr, list: seq<Dom>, last: Option<Ptr>, q: Ptr, bits: seq<bool>)
    requires LaidElement(table, opt, sub, k, b)
    requires ListAt(dom, p, k) == Some(list)
    requires ConformsList(sub, list) && SmallList(sub, list) && |list| <= 1 && (opt || |list| == 1)
    requires Foreign(q, p) && (last == None || last == Some(q))
    ensures StaleOutcome(table, dom, Conf(b, st + [p], last, bits), b + Size(sub), st + [p], q)
    decreases sub
  {
    var step := Stepper(table, dom);
    var c := Conf(b, st + [p], last, bits);
    if last.None? {
      ElementWritten(table, dom, opt, sub, k, b, st, p, list, bits);
    } else if opt && list != [] {
      assert q != p + [(k, 0)];
      assert step(c) == Crash;
      CrashNeverStops(table, dom);
      NeverStopsStep(table, dom, c);
    } else if opt || sub.Simple? {
      if !opt {
        DerefMember(dom, p, k, 0);
      }
      Here(step, step(c));
      After(step, c, step(c));
    } else {
      DerefMember(dom, p, k, 0);
      var r := p + [(k, 0)];
      var c1 := Conf(b + 1, st + [p] + [r], last, bits);
      assert step(c) == c1;
      Here(step, c1);
      After(step, c, c1);
      assert list[0].slots[0..] == list[0].slots;
      StaleFields(table, dom, sub.fields, 0, b + 1, st + [p], r, list[0].slots, last, q, bits);
      if NeverStops(table, dom, c1) {
        NeverStopsStep(table, dom, c);
      } else {
        var last', bits' :| (last' == None || last' == Some(q))
                            && Reaches(step, c1, Conf(b + Size(sub) - 1, st + [p] + [r], last', bits'));
        var c2 := Conf(b + Size(sub) - 1, st + [p] + [r], last', bits');
        assert Pop(c2.stack) == st + [p];
        assert step(c2) == Conf(b + Size(sub), st + [p], last', bits');
        Here(step, step(c2));
        After(step, c2, step(c2));
        Then(step, c, c1, c2);
        Then(step, c, c2, step(c2));
      }
    }
  }

  /** A second occurrence of a simple element makes next_* return the first one again and again. */
  lemma {:induction false} LeafLoops(table: seq<State>, dom: Dom, sub: Schema, k: nat, b: nat,
                                     st: seq<Ptr>, p: Ptr, list: seq<Dom>, bits: seq<bool>, n: nat)
    requires LaidElement(table, true, sub, k, b) && sub.Simple?
    requires ListAt(dom, p, k) == Some(list) && |list| >= 2 && Conforms(sub, list[0])
    ensures !Stopped(table, Run(Stepper(table, dom), Conf(b, st + [p], Some(p + [(k, 0)]), bits), n))
    decreases n
  {
    if n > 0 {
      DerefMember(dom, p, k, 0);
      var q := p + [(k, 0)];
      assert q[|p|] == (k, 0) && (p + [(k, |list| - 1)])[|p|] == (k, |list| - 1);
      var c := Conf(b, st + [p], Some(q), bits);
      assert Step(table, dom, c) == Conf(b, st + [p], Some(q), bits + [true] + EncodeLeaf(sub.leaf, list[0].v));
      LeafLoops(table, dom, sub, k, b, st, p, list, bits + [true] + EncodeLeaf(sub.leaf, list[0].v), n - 1);
    }
  }

  /** One lap around an optional structure that occurs more than once, from its Begin state back to it. */
  lemma StructureLap(table: seq<State>, dom: Dom, sub: Schema, k: nat, b: nat, st: seq<Ptr>, p: Ptr,
                     list: seq<Dom>, last: Option<Ptr>, bits: seq<bool>) returns (m: nat, bits': seq<bool>)
    requires LaidElement(table, true, sub, k, b) && sub.Complex?
    requires ListAt(dom, p, k) == Some(list) && |list| >= 2 && Conforms(sub, list[0]) && Small(sub, list[0])
    requires last == None || last == Some(p + [(k, 0)])
    requires !NeverStops(table, dom, Conf(b, st + [p], last, bits))
    ensures m > 0 && Run(Stepper(table, dom), Conf(b, st + [p], last, bits), m)
                     == Conf(b, st + [p], Some(p + [(k, 0)]), bits')
  {
    var step := Stepper(table, dom);
    var q := p + [(k, 0)];
    var c := Conf(b, st + [p], last, bits);
    DerefMember(dom, p, k, 0);
    assert q[|p|] == (k, 0) && (p + [(k, |list| - 1)])[|p|] == (k, |list| - 1);
    var c1 := Conf(b + 1, st + [p] + [q], last, bits + [true]);
    assert step(c) == c1;
    assert list[0].slots[0..] == list[0].slots;
    StaleFields(table, dom, sub.fields, 0, b + 1, st + [p], q, list[0].slots, last, q, bits + [true]);
    if NeverStops(table, dom, c1) {
      NeverStopsStep(table, dom, c);
    }
    var last', bits2 :| (last' == None || last' == Some(q))
                        && Reaches(step, c1, Conf(b + Size(sub) - 1, st + [p] + [q], last', bits2));
    var c2 := Conf(b + Size(sub) - 1, st + [p] + [q], last', bits2);
    var i: nat :| Run(step, c1, i) == c2;
    bits' := bits2;
    m := i + 2;
    assert Pop(c2.stack) == st + [p];
    assert step(c2) == Conf(b, st + [p], Some(q), bits2);
    RunNext(step, c1, i);
    assert Run(step, c, m) == Run(step, c1, i + 1);
  }

  lemma {:induction false} StructureLoops(table: seq<State>, dom: Dom, sub: Schema, k: nat, b: nat, st: seq<Ptr>, p: Ptr,
                                          list: seq<Dom>, last: Option<Ptr>, bits: seq<bool>, n: nat)
    requires LaidElement(table, true, sub, k, b) && sub.Complex?
    requires ListAt(dom, p, k) == Some(list) && |list| >= 2 && Conforms(sub, list[0]) && Small(sub, list[0])
    requires last == None || last == Some(p + [(k, 0)])
    ensures !Stopped(table, Run(Stepper(table, dom), Conf(b, st + [p], last, bits), n))
    decreases n
  {
    var step := Stepper(table, dom);
    var c := Conf(b, st + [p], last, bits);
    if !NeverStops(table, dom, c) {
      var m, bits' := StructureLap(table, dom, sub, k, b, st, p, list, last, bits);
      if n >= m {
        RunAdd(step, c, m, n - m);
        StructureLoops(table, dom, sub, k, b, st, p, list, Some(p + [(k, 0)]), bits', n - m);
      } else if Stopped(table, Run(step, c, n)) {
        RunAdd(step, c, n, m - n);
        RunHalted(step, Run(step, c, n), m - n);
      }
    }
  }

  /** An element with a list of two or more, at any depth. */
  lemma {:induction false} LargeElement(table: seq<State>, dom: Dom, opt: bool, sub: Schema, k: nat, b: nat,
                                        st: seq<Ptr>, p: Ptr, list: seq<Dom>, bits: seq<bool>)
    requires LaidElement(table, opt, sub, k, b)
    requires ListAt(dom, p, k) == Some(list) && ConformsList(sub, list) && (opt || |list| == 1)
    requires |list| > 1 || !SmallList(sub, list)
    ensures NeverStops(table, dom, Conf(b, st + [p], None, bits))
    decreases sub
  {
    var step := Stepper(table, dom);
    var c := Conf(b, st + [p], None, bits);
    var q := p + [(k, 0)];
    DerefMember(dom, p, k, 0);
    assert |list| == 1 ==> list[1..] == [];
    if !Small(sub, list[0]) {
      assert list[0].slots[0..] == list[0].slots;
      LargeFields(table, dom, sub.fields, 0, b + 1, st + [p], q, list[0].slots, step(c).bits);
      NeverStopsStep(table, dom, c);
    } else if sub.Complex? {
      forall n: nat
        ensures !Stopped(table, Run(step, c, n))
      {
        StructureLoops(table, dom, sub, k, b, st, p, list, None, bits, n);
      }
    } else {
      var bits' := bits + [true] + EncodeLeaf(sub.leaf, list[0].v);
      assert step(c) == Conf(b, st + [p], Some(q), bits');
      forall n: nat
        ensures !Stopped(table, Run(step, step(c), n))
      {
        LeafLoops(table, dom, sub, k, b, st, p, list, bits', n);
      }
      NeverStopsStep(table, dom, c);
    }
  }

  lemma {:induction false} LargeFields(table: seq<State>, dom: Dom, fs: Fields, k: nat, b: nat,
                                       st: seq<Ptr>, p: Ptr, slots: seq<seq<Dom>>, bits: seq<bool>)
    requires LaidFields(table, fs, k, b)
    requires Deref(dom, p) == Some(Struct(slots)) && k <= |slots|
    requires ConformsFields(fs, slots[k..]) && !SmallFields(fs, slots[k..])
    ensures NeverStops(table, dom, Conf(b, st + [p], None, bits))
    decreases fs
  {
    match fs
    case Done =>
    case Field(opt, sub, rest) =>
      assert slots[k..][1..] == slots[k + 1..];
      var c := Conf(b, st + [p], None, bits);
      if |slots[k]| > 1 || !SmallList(sub, slots[k]) {
        LargeElement(table, dom, opt, sub, k, b, st, p, slots[k], bits);
      } else {
        ElementWritten(table, dom, opt, sub, k, b, st, p, slots[k], bits);
        var bits' := bits + EncodeSlot(opt, sub, slots[k]);
        LargeFields(table, dom, rest, k + 1, b + Size(sub), st, p, slots, bits');
        NeverStopsAfter(table, dom, c, Conf(b + Size(sub), st + [p], None, bits'));
      }
  }

  /** The automaton returns exactly on the structures none of whose lists holds more than one occurrence. */
  lemma ReturnsExactlyIfSmall(table: seq<State>, s: Schema, dom: Dom, bits: seq<bool>)
    requires Laid(table, s) && Conforms(s, dom)
    ensures !NeverStops(table, dom, Start(bits)) <==> Small(s, dom)
  {
    if Small(s, dom) {
      DocumentWritten(table, dom, s, bits);
      var n: nat :| Run(Stepper(table, dom), Start(bits), n) == Conf(|table|, [], None, bits + Encode(s, dom));
      assert Stopped(table, Run(Stepper(table, dom), Start(bits), n));
    } else {
      var root: Ptr := [];
      assert [] + [root] == [root];
      assert dom.slots[0..] == dom.slots;
      LargeFields(table, dom, s.fields, 0, 1, [], root, dom.slots, bits);
      assert Step(table, dom, Start(bits)) == Conf(1, [root], None, bits);
      NeverStopsStep(table, dom, Start(bits));
    }
  }
}
