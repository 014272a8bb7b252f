/** What the readers accept: exactly the printed documents, and the printed document determines the tree. */
module Grammar {
  import opened Sequences
  import opened Wire
  import opened Events

  /** The simple elements of a schema. */
  function SimpleTags(s: Schema): set<(string, Leaf)> {
    match s
    case Simple(tag, leaf) => {(tag, leaf)}
    case Complex(_, fields) => SimpleTagsOf(fields)
  }

  function SimpleTagsOf(fs: Fields): set<(string, Leaf)> {
    match fs
    case Done => {}
    case Field(_, sub, rest) => SimpleTags(sub) + SimpleTagsOf(rest)
  }

  /** Every start tag of a simple element is followed by a text that parses. */
  ghost predicate Texted(simple: set<(string, Leaf)>, ev: seq<Event>) {
    forall i, e :: 0 <= i < |ev| && e in simple && ev[i] == Open(e.0) ==> HasText(e.1, ev, i + 1)
  }

  predicate HasText(leaf: Leaf, ev: seq<Event>, i: nat) {
    i < |ev| && ev[i].Text? && KindMatches(leaf, ev[i].v)
  }

  lemma TextedSuffix(simple: set<(string, Leaf)>, ev: seq<Event>, a: seq<Event>, b: seq<Event>)
    requires Texted(simple, ev) && ev == a + b
    ensures Texted(simple, b)
  {
    forall i, e | 0 <= i < |b| && e in simple && b[i] == Open(e.0)
      ensures HasText(e.1, b, i + 1)
    {
      assert ev[|a| + i] == Open(e.0);
      assert HasText(e.1, ev, |a| + i + 1);
    }
  }

  // ---------------------------------------------------------------- accepted documents are printed trees

  /** `ev` is the printed form of d followed by `rest`. */
  ghost predicate IsPrint(s: Schema, d: Dom, ev: seq<Event>, rest: seq<Event>) {
    Conforms(s, d) && ev == Render(s, d) + rest
  }

  /** An accepted element, its start tag included, is the printed form of the tree read. */
  lemma {:induction false} AcceptedIsPrint(s: Schema, ev: seq<Event>, simple: set<(string, Leaf)>)
    requires IsOpen(ev, s.tag) && Texted(simple, ev) && SimpleTags(s) <= simple
    requires Accept(s, ev[1..], FromText).Got?
    ensures var Got(d, rest) := Accept(s, ev[1..], FromText);
            IsPrint(s, d, ev, rest) && Texted(simple, rest)
    decreases |ev|, s, 0
  {
    match s
    case Simple(tag, leaf) =>
      AcceptedSimpleIsPrint(s, ev, simple);
    case Complex(tag, fields) =>
      assert ev == [Open(tag)] + ev[1..];
      TextedSuffix(simple, ev, [Open(tag)], ev[1..]);
      AcceptedFieldsArePrint(fields, ev[1..], simple);
      var Got(slots, tail) := AcceptFields(fields, ev[1..], FromText);
      Enclose(ev, Open(tag), RenderFields(fields, slots), Close(tag), tail);
      TextedSuffix(simple, tail, [Close(tag)], tail[1..]);
  }

  lemma Enclose(ev: seq<Event>, first: Event, body: seq<Event>, last: Event, tail: seq<Event>)
    requires ev != [] && ev[0] == first && ev[1..] == body + tail && tail != [] && tail[0] == last
    ensures ev == [first] + body + [last] + tail[1..]
    ensures tail == [last] + tail[1..]
  {
    assert ev == [first] + ev[1..];
    assert tail == [last] + tail[1..];
  }

  lemma AcceptedSimpleIsPrint(s: Schema, ev: seq<Event>, simple: set<(string, Leaf)>)
    requires s.Simple? && IsOpen(ev, s.tag) && Texted(simple, ev) && SimpleTags(s) <= simple
    requires Accept(s, ev[1..], FromText).Got?
    ensures var Got(d, rest) := Accept(s, ev[1..], FromText);
            IsPrint(s, d, ev, rest) && Texted(simple, rest)
  {
    var Got(d, rest) := Accept(s, ev[1..], FromText);
    assert (s.tag, s.leaf) in simple;
    assert HasText(s.leaf, ev, 1);
    assert ev == [Open(s.tag), Text(d.v), Close(s.tag)] + rest;
    TextedSuffix(simple, ev, Render(s, d), rest);
  }

  lemma {:induction false} AcceptedFieldsArePrint(fs: Fields, ev: seq<Event>, simple: set<(string, Leaf)>)
    requires Texted(simple, ev) && SimpleTagsOf(fs) <= simple
    requires AcceptFields(fs, ev, FromText).Got?
    ensures var Got(slots, rest) := AcceptFields(fs, ev, FromText);
            ConformsFields(fs, slots) && ev == RenderFields(fs, slots) + rest && Texted(simple, rest)
    decreases |ev|, fs, 0
  {
    match fs
    case Done =>
      assert ev == [] + ev;
    case Field(opt, sub, more) =>
      AcceptedSlotIsPrint(opt, sub, ev, simple);
      var Got(list, ev1) := AcceptSlot(opt, sub, ev, FromText);
      AcceptedFieldsArePrint(more, ev1, simple);
      var Got(slots, rest) := AcceptFields(more, ev1, FromText);
      assert ([list] + slots)[1..] == slots;
      Assoc(RenderList(sub, list), RenderFields(more, slots), rest);
  }

  lemma {:induction false} AcceptedSlotIsPrint(opt: bool, sub: Schema, ev: seq<Event>, simple: set<(string, Leaf)>)
    requires Texted(simple, ev) && SimpleTags(sub) <= simple
    requires AcceptSlot(opt, sub, ev, FromText).Got?
    ensures var Got(list, rest) := AcceptSlot(opt, sub, ev, FromText);
            ConformsList(sub, list) && (opt || |list| == 1) && ev == RenderList(sub, list) + rest && Texted(simple, rest)
    decreases |ev|, sub, 2
  {
    if opt {
      AcceptedListIsPrint(sub, ev, simple);
    } else {
      AcceptedIsPrint(sub, ev, simple);
      RenderListCons(sub, Accept(sub, ev[1..], FromText).v, []);
    }
  }

  lemma {:induction false} AcceptedListIsPrint(sub: Schema, ev: seq<Event>, simple: set<(string, Leaf)>)
    requires Texted(simple, ev) && SimpleTags(sub) <= simple
    requires AcceptList(sub, ev, FromText).Got?
    ensures var Got(list, rest) := AcceptList(sub, ev, FromText);
            ConformsList(sub, list) && ev == RenderList(sub, list) + rest && Texted(simple, rest)
    decreases |ev|, sub, 1
  {
    if IsOpen(ev, sub.tag) {
      AcceptedIsPrint(sub, ev, simple);
      var Got(d, ev1) := Accept(sub, ev[1..], FromText);
      AcceptedListIsPrint(sub, ev1, simple);
      var Got(list, rest) := AcceptList(sub, ev1, FromText);
      RenderListCons(sub, d, list);
      Assoc(Render(sub, d), RenderList(sub, list), rest);
    } else {
      assert ev == [] + ev;
    }
  }

  // ---------------------------------------------------------------- the unassigned fraction

  /** Two readings differ at most in the fractions of times. */
  ghost predicate AlikeReadings(s: Schema, a: Reading<Dom>, b: Reading<Dom>) {
    a.Got? == b.Got? && (a.Got? ==> a.rest == b.rest && Alike(UpToFraction, s, a.v, b.v))
  }

  ghost predicate AlikeFieldReadings(fs: Fields, a: Reading<seq<seq<Dom>>>, b: Reading<seq<seq<Dom>>>) {
    a.Got? == b.Got? && (a.Got? ==> a.rest == b.rest && AlikeFields(UpToFraction, fs, a.v, b.v))
  }

  ghost predicate AlikeListReadings(sub: Schema, a: Reading<seq<Dom>>, b: Reading<seq<Dom>>) {
    a.Got? == b.Got? && (a.Got? ==> a.rest == b.rest && AlikeList(UpToFraction, sub, a.v, b.v))
  }

  lemma {:induction false} StaleFractions(s: Schema, ev: seq<Event>, simple: set<(string, Leaf)>, clock: Clock)
    requires IsOpen(ev, s.tag) && Texted(simple, ev) && SimpleTags(s) <= simple
    ensures AlikeReadings(s, Accept(s, ev[1..], FromText), Accept(s, ev[1..], clock))
    decreases |ev|, s, 0
  {
    match s
    case Simple(tag, leaf) =>
      assert (tag, leaf) in simple;
      assert HasText(leaf, ev, 1);
    case Complex(tag, fields) =>
      assert ev == [Open(tag)] + ev[1..];
      TextedSuffix(simple, ev, [Open(tag)], ev[1..]);
      StaleFractionsOfFields(fields, ev[1..], simple, clock);
  }

  lemma {:induction false} StaleFractionsOfFields(fs: Fields, ev: seq<Event>, simple: set<(string, Leaf)>, clock: Clock)
    requires Texted(simple, ev) && SimpleTagsOf(fs) <= simple
    ensures AlikeFieldReadings(fs, AcceptFields(fs, ev, FromText), AcceptFields(fs, ev, clock))
    decreases |ev|, fs, 0
  {
    match fs
    case Done =>
    case Field(opt, sub, more) =>
      var a, b := AcceptSlot(opt, sub, ev, FromText), AcceptSlot(opt, sub, ev, clock);
      if opt {
        StaleFractionsOfList(sub, ev, simple, clock);
      } else if IsOpen(ev, sub.tag) {
        StaleFractions(sub, ev, simple, clock);
        assert a.Got? ==> a.v[1..] == b.v[1..] == [];
      }
      assert AlikeListReadings(sub, a, b);
      if a.Got? {
        AcceptedSlotIsPrint(opt, sub, ev, simple);
        StaleFractionsOfFields(more, a.rest, simple, clock);
        var a2, b2 := AcceptFields(more, a.rest, FromText), AcceptFields(more, a.rest, clock);
        if a2.Got? {
          assert ([a.v] + a2.v)[1..] == a2.v && ([b.v] + b2.v)[1..] == b2.v;
        }
      }
  }

  lemma {:induction false} StaleFractionsOfList(sub: Schema, ev: seq<Event>, simple: set<(string, Leaf)>, clock: Clock)
    requires Texted(simple, ev) && SimpleTags(sub) <= simple
    ensures AlikeListReadings(sub, AcceptList(sub, ev, FromText), AcceptList(sub, ev, clock))
    decreases |ev|, sub, 1
  {
    if IsOpen(ev, sub.tag) {
      StaleFractions(sub, ev, simple, clock);
      var a, b := Accept(sub, ev[1..], FromText), Accept(sub, ev[1..], clock);
      if a.Got? {
        AcceptedIsPrint(sub, ev, simple);
        StaleFractionsOfList(sub, a.rest, simple, clock);
        var a2, b2 := AcceptList(sub, a.rest, FromText), AcceptList(sub, a.rest, clock);
        if a2.Got? {
          assert ([a.v] + a2.v)[1..] == a2.v && ([b.v] + b2.v)[1..] == b2.v;
        }
      }
    }
  }

  // ---------------------------------------------------------------- the language accepted

  /** On documents whose texts all parse, the reader accepts exactly the prints of conforming trees followed by
      anything, and what it returns differs from the tree printed at most in the fractions of times. */
  lemma AcceptsExactlyPrints(s: Schema, ev: seq<Event>, clock: Clock)
    requires Distinct(s) && Texted(SimpleTags(s), ev)
    ensures AcceptDocument(s, ev, clock).Got? <==> exists d, rest :: IsPrint(s, d, ev, rest)
    ensures forall d, rest :: IsPrint(s, d, ev, rest) ==> AcceptsPrint(s, d, ev, rest, clock)
  {
    if AcceptDocument(s, ev, clock).Got? {
      StaleFractions(s, ev, SimpleTags(s), clock);
      AcceptedIsPrint(s, ev, SimpleTags(s));
      var r := Accept(s, ev[1..], FromText);
      assert IsPrint(s, r.v, ev, r.rest);
    }
    forall d, rest | IsPrint(s, d, ev, rest)
      ensures AcceptsPrint(s, d, ev, rest, clock)
    {
      PrintIsAccepted(s, d, ev, rest, clock);
    }
  }

  ghost predicate AcceptsPrint(s: Schema, d: Dom, ev: seq<Event>, rest: seq<Event>, clock: Clock) {
    var r := AcceptDocument(s, ev, clock);
    r.Got? && r.rest == rest && Alike(UpToFraction, s, d, r.v)
  }

  /** For this direction nothing is asked of the texts, nor of what stands behind the print. */
  lemma PrintIsAccepted(s: Schema, d: Dom, ev: seq<Event>, rest: seq<Event>, clock: Clock)
    requires Distinct(s) && IsPrint(s, d, ev, rest)
    ensures AcceptsPrint(s, d, ev, rest, clock)
  {
    AcceptOfRender(s, d, rest, clock);
    assert (Render(s, d) + rest)[1..] == Render(s, d)[1..] + rest;
  }

  /** Printing is injective, even with anything printed behind. */
  lemma RenderInjective(s: Schema, d: Dom, rest: seq<Event>, d': Dom, rest': seq<Event>)
    requires Distinct(s) && Conforms(s, d) && Conforms(s, d')
    requires Render(s, d) + rest == Render(s, d') + rest'
    ensures d == d' && rest == rest'
  {
    ReadPrint(s, d, Render(s, d) + rest, rest);
    ReadPrint(s, d', Render(s, d) + rest, rest');
  }

  lemma ReadPrint(s: Schema, d: Dom, ev: seq<Event>, rest: seq<Event>)
    requires Distinct(s) && IsPrint(s, d, ev, rest)
    ensures AcceptDocument(s, ev, FromText) == Got(d, rest)
  {
    AcceptOfRender(s, d, rest, FromText);
    assert (Render(s, d) + rest)[1..] == Render(s, d)[1..] + rest;
  }
}
