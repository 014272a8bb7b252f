/** Which of the documents that sax2bin accepts arrive at the node. */
module Delivery {
  import opened Sequences
  import opened Bits
  import opened Wire
  import opened Automata
  import opened Events
  import opened Grammar
  import opened Loss
  import opened Sensors
  import opened Messages
  import Bin2Dom
  import Sax2Bin

  // ---------------------------------------------------------------- trees with lost times

  /** A tree of the shape the schema asks for, but for times that were lost. */
  predicate Shaped(s: Schema, d: Dom)
    decreases s, 0
  {
    match s
    case Simple(_, _) => d.Val?
    case Complex(_, fields) => d.Struct? && ShapedFields(fields, d.slots)
  }

  predicate ShapedFields(fs: Fields, slots: seq<seq<Dom>>)
    decreases fs, 0
  {
    match fs
    case Done => slots == []
    case Field(opt, sub, rest) =>
      slots != [] && (opt || |slots[0]| == 1) && ShapedList(sub, slots[0]) && ShapedFields(rest, slots[1..])
  }

  predicate ShapedList(sub: Schema, list: seq<Dom>)
    decreases sub, |list| + 1
  {
    list == [] || (Shaped(sub, list[0]) && ShapedList(sub, list[1..]))
  }

  /** A trip over the wire neither loses a time nor finds one. */
  lemma {:induction false} NormShape(s: Schema, d: Dom)
    requires Shaped(s, d)
    ensures Conforms(s, Norm(s, d)) ==> Conforms(s, d)
    ensures Small(s, Norm(s, d)) ==> Small(s, d)
    decreases s, 0
  {
    if s.Complex? {
      NormShapeFields(s.fields, d.slots);
    }
  }

  lemma {:induction false} NormShapeFields(fs: Fields, slots: seq<seq<Dom>>)
    requires ShapedFields(fs, slots)
    ensures ConformsFields(fs, NormFields(fs, slots)) ==> ConformsFields(fs, slots)
    ensures SmallFields(fs, NormFields(fs, slots)) ==> SmallFields(fs, slots)
    decreases fs, 0
  {
    if fs.Field? {
      var n := NormFields(fs, slots);
      assert n[0] == NormList(fs.sub, slots[0]) && n[1..] == NormFields(fs.rest, slots[1..]);
      NormShapeList(fs.sub, slots[0]);
      NormShapeFields(fs.rest, slots[1..]);
    }
  }

  lemma {:induction false} NormShapeList(sub: Schema, list: seq<Dom>)
    requires ShapedList(sub, list)
    ensures ConformsList(sub, NormList(sub, list)) ==> ConformsList(sub, list)
    ensures SmallList(sub, NormList(sub, list)) ==> SmallList(sub, list)
    decreases sub, |list| + 1
  {
    if list != [] {
      var n := NormList(sub, list);
      assert n[0] == Norm(sub, list[0]) && n[1..] == NormList(sub, list[1..]);
      NormShape(sub, list[0]);
      NormShapeList(sub, list[1..]);
    }
  }

  /** The bits of a tree give it back, up to the loss of one trip, exactly if it has lost no time and repeats
      nothing. */
  lemma ArrivesExactly(s: Schema, e: Dom)
    requires Sound(s) && Shaped(s, e)
    ensures Parse(s, Encode(s, e), true) == Ok(Norm(s, e), []) <==> Conforms(s, e) && Small(s, e)
  {
    assert Encode(s, e) + [] == Encode(s, e);
    if Conforms(s, e) && Small(s, e) {
      ParseOfEncode(s, e, [], true);
    }
    if Parse(s, Encode(s, e), true) == Ok(Norm(s, e), []) {
      EncodeOfParse(s, Encode(s, e), true);
      NormShape(s, e);
    }
  }

  // ---------------------------------------------------------------- the same, read off the events

  /** The tags of the times of a schema, which no other element has. */
  predicate TimeTags(s: Schema, times: set<string>) {
    match s
    case Simple(tag, leaf) => tag in times <==> leaf.TimeLeaf?
    case Complex(tag, fields) => tag !in times && TimeTagsOf(fields, times)
  }

  predicate TimeTagsOf(fs: Fields, times: set<string>) {
    match fs
    case Done => true
    case Field(_, sub, rest) => TimeTags(sub, times) && TimeTagsOf(rest, times)
  }

  /** Behind the start tag of a time comes a text that parses. */
  predicate TimeFollows(times: set<string>, a: Event, b: Event) {
    a.Open? && a.tag in times ==> b.Text? && b.v.Time?
  }

  ghost predicate TimesParse(times: set<string>, ev: seq<Event>) {
    forall i :: 0 <= i < |ev| - 1 ==> TimeFollows(times, ev[i], ev[i + 1])
  }

  /** No element follows one of the same tag. */
  predicate Different(a: Event, b: Event) {
    a.Close? ==> b != Open(a.tag)
  }

  ghost predicate NothingRepeated(ev: seq<Event>) {
    forall i :: 0 <= i < |ev| - 1 ==> Different(ev[i], ev[i + 1])
  }

  lemma TimesOfConcat(times: set<string>, a: seq<Event>, b: seq<Event>)
    ensures TimesParse(times, a + b) <==>
            TimesParse(times, a) && TimesParse(times, b) && (a != [] && b != [] ==> TimeFollows(times, a[|a| - 1], b[0]))
  {
    var ev := a + b;
    if TimesParse(times, ev) {
      forall i | 0 <= i < |a| - 1
        ensures TimeFollows(times, a[i], a[i + 1])
      {
        assert TimeFollows(times, ev[i], ev[i + 1]);
      }
      forall i | 0 <= i < |b| - 1
        ensures TimeFollows(times, b[i], b[i + 1])
      {
        assert TimeFollows(times, ev[|a| + i], ev[|a| + i + 1]);
      }
      assert a != [] && b != [] ==> TimeFollows(times, ev[|a| - 1], ev[|a| - 1 + 1]);
    }
  }

  lemma RepeatedInConcat(a: seq<Event>, b: seq<Event>)
    ensures NothingRepeated(a + b) <==>
            NothingRepeated(a) && NothingRepeated(b) && (a != [] && b != [] ==> Different(a[|a| - 1], b[0]))
  {
    var ev := a + b;
    if NothingRepeated(ev) {
      forall i | 0 <= i < |a| - 1
        ensures Different(a[i], a[i + 1])
      {
        assert Different(ev[i], ev[i + 1]);
      }
      forall i | 0 <= i < |b| - 1
        ensures Different(b[i], b[i + 1])
      {
        assert Different(ev[|a| + i], ev[|a| + i + 1]);
      }
      assert a != [] && b != [] ==> Different(ev[|a| - 1], ev[|a| - 1 + 1]);
    }
  }

  /** Where whole elements follow one another only a repetition can be added. */
  lemma MirrorsBoth(times: set<string>, a: seq<Event>, b: seq<Event>)
    requires a != [] ==> a[|a| - 1].Close?
    ensures TimesParse(times, a + b) <==> TimesParse(times, a) && TimesParse(times, b)
    ensures NothingRepeated(a + b) <==>
            NothingRepeated(a) && NothingRepeated(b) && (a != [] && b != [] ==> b[0] != Open(a[|a| - 1].tag))
  {
    TimesOfConcat(times, a, b);
    RepeatedInConcat(a, b);
  }

  /** The events of one element: from its start tag to its end tag. */
  predicate Encloses(tag: string, seg: seq<Event>) {
    |seg| >= 2 && seg[0] == Open(tag) && seg[|seg| - 1] == Close(tag)
  }

  /** The events of elements with these tags, if any. */
  predicate Among(tags: set<string>, seg: seq<Event>) {
    seg != [] ==> seg[0].Open? && seg[0].tag in tags && seg[|seg| - 1].Close? && seg[|seg| - 1].tag in tags
  }

  ghost predicate Mirrors(times: set<string>, seg: seq<Event>, conforms: bool, small: bool) {
    (conforms <==> TimesParse(times, seg)) && (small <==> NothingRepeated(seg))
  }

  /** The events an element is read from show whether a time was lost and whether anything was repeated. */
  lemma {:induction false} ElementEvents(s: Schema, ev: seq<Event>, clock: Clock, times: set<string>) returns (seg: seq<Event>)
    requires IsOpen(ev, s.tag) && Accept(s, ev[1..], clock).Got?
    requires Distinct(s) && TimeTags(s, times)
    ensures var Got(d, rest) := Accept(s, ev[1..], clock);
            && ev == seg + rest && Encloses(s.tag, seg) && Shaped(s, d)
            && Mirrors(times, seg, Conforms(s, d), Small(s, d))
    decreases |ev|, s, 0
  {
    match s
    case Simple(tag, leaf) =>
      seg := SimpleEvents(s, ev, clock, times);
    case Complex(tag, fields) =>
      var Got(slots, tail) := AcceptFields(fields, ev[1..], clock);
      var inner := FieldsEvents(fields, ev[1..], clock, times);
      seg := Enclosed(ev, Open(tag), inner, Close(tag), tail);
      EnclosedMirrors(tag, fields, inner, times);
  }

  lemma Enclosed(ev: seq<Event>, first: Event, body: seq<Event>, last: Event, tail: seq<Event>) returns (seg: seq<Event>)
    requires ev != [] && ev[0] == first && ev[1..] == body + tail && tail != [] && tail[0] == last
    ensures seg == [first] + body + [last] && ev == seg + tail[1..]
  {
    Enclose(ev, first, body, last, tail);
    seg := [first] + body + [last];
  }

  lemma EnclosedMirrors(tag: string, fs: Fields, inner: seq<Event>, times: set<string>)
    requires tag !in times && Among(Tags(fs), inner)
    ensures var seg := [Open(tag)] + inner + [Close(tag)];
            Encloses(tag, seg) && (TimesParse(times, seg) <==> TimesParse(times, inner))
            && (NothingRepeated(seg) <==> NothingRepeated(inner))
  {
    var seg := [Open(tag)] + inner + [Close(tag)];
    TimesOfConcat(times, [Open(tag)], inner);
    TimesOfConcat(times, [Open(tag)] + inner, [Close(tag)]);
    RepeatedInConcat([Open(tag)], inner);
    RepeatedInConcat([Open(tag)] + inner, [Close(tag)]);
    assert ([Open(tag)] + inner)[|inner|] == if inner == [] then Open(tag) else inner[|inner| - 1];
  }

  lemma SimpleEvents(s: Schema, ev: seq<Event>, clock: Clock, times: set<string>) returns (seg: seq<Event>)
    requires s.Simple? && IsOpen(ev, s.tag) && Accept(s, ev[1..], clock).Got? && TimeTags(s, times)
    ensures var Got(d, rest) := Accept(s, ev[1..], clock);
            && ev == seg + rest && Encloses(s.tag, seg) && Shaped(s, d)
            && Mirrors(times, seg, Conforms(s, d), Small(s, d))
  {
    if ev[1].Text? {
      seg := [ev[0], ev[1], ev[2]];
    } else {
      seg := [ev[0], ev[1]];
    }
    assert TimesParse(times, seg) <==> TimeFollows(times, seg[0], seg[1]) by {
      if TimesParse(times, seg) {
        assert TimeFollows(times, seg[0], seg[0 + 1]);
      }
    }
  }

  lemma {:induction false} FieldsEvents(fs: Fields, ev: seq<Event>, clock: Clock, times: set<string>) returns (seg: seq<Event>)
    requires AcceptFields(fs, ev, clock).Got? && DistinctFields(fs) && TimeTagsOf(fs, times)
    ensures var Got(slots, rest) := AcceptFields(fs, ev, clock);
            && ev == seg + rest && Among(Tags(fs), seg) && ShapedFields(fs, slots)
            && Mirrors(times, seg, ConformsFields(fs, slots), SmallFields(fs, slots))
    decreases |ev|, fs, 0
  {
    match fs
    case Done =>
      seg := [];
      assert ev == [] + ev;
    case Field(opt, sub, more) =>
      var Got(list, ev1) := AcceptSlot(opt, sub, ev, clock);
      var Got(slots, rest) := AcceptFields(more, ev1, clock);
      var a := SlotEvents(opt, sub, ev, clock, times);
      var b := FieldsEvents(more, ev1, clock, times);
      seg := a + b;
      Assoc(a, b, rest);
      MirrorsBoth(times, a, b);
      assert ([list] + slots)[1..] == slots;
  }

  lemma {:induction false} SlotEvents(opt: bool, sub: Schema, ev: seq<Event>, clock: Clock, times: set<string>)
      returns (seg: seq<Event>)
    requires AcceptSlot(opt, sub, ev, clock).Got? && Distinct(sub) && TimeTags(sub, times)
    ensures var Got(list, rest) := AcceptSlot(opt, sub, ev, clock);
            && ev == seg + rest && Among({sub.tag}, seg) && ShapedList(sub, list) && (opt || |list| == 1)
            && Mirrors(times, seg, ConformsList(sub, list), |list| <= 1 && SmallList(sub, list))
    decreases |ev|, sub, 2
  {
    if opt {
      seg := ListEvents(sub, ev, clock, times);
    } else {
      seg := ElementEvents(sub, ev, clock, times);
      var d := Accept(sub, ev[1..], clock).v;
      assert [d][1..] == [];
    }
  }

  lemma {:induction false} ListEvents(sub: Schema, ev: seq<Event>, clock: Clock, times: set<string>) returns (seg: seq<Event>)
    requires AcceptList(sub, ev, clock).Got? && Distinct(sub) && TimeTags(sub, times)
    ensures var Got(list, rest) := AcceptList(sub, ev, clock);
            && ev == seg + rest && Among({sub.tag}, seg) && (seg == [] <==> list == []) && ShapedList(sub, list)
            && Mirrors(times, seg, ConformsList(sub, list), |list| <= 1 && SmallList(sub, list))
    decreases |ev|, sub, 1
  {
    if IsOpen(ev, sub.tag) {
      var Got(d, ev1) := Accept(sub, ev[1..], clock);
      var Got(list, rest) := AcceptList(sub, ev1, clock);
      var a := ElementEvents(sub, ev, clock, times);
      var b := ListEvents(sub, ev1, clock, times);
      seg := a + b;
      Assoc(a, b, rest);
      MirrorsBoth(times, a, b);
      assert ([d] + list)[1..] == list;
    } else {
      seg := [];
      assert ev == [] + ev;
    }
  }

  // ---------------------------------------------------------------- whether all texts parse

  /** The simple elements of a schema can be told by their tags: no structure has such a tag, and elements that
      share one are of one kind. */
  ghost predicate TagsTell(s: Schema, simple: set<(string, Leaf)>) {
    match s
    case Simple(tag, leaf) =>
      (tag, leaf) in simple && forall e :: e in simple && e.0 == tag ==> e.1.TimeLeaf? == leaf.TimeLeaf?
    case Complex(tag, fields) => (forall e :: e in simple ==> e.0 != tag) && TagsTellOf(fields, simple)
  }

  ghost predicate TagsTellOf(fs: Fields, simple: set<(string, Leaf)>) {
    match fs
    case Done => true
    case Field(_, sub, rest) => TagsTell(sub, simple) && TagsTellOf(rest, simple)
  }

  lemma TextedParts(simple: set<(string, Leaf)>, a: seq<Event>, b: seq<Event>)
    requires Texted(simple, a + b) && (b != [] ==> !b[0].Text?)
    ensures Texted(simple, a) && Texted(simple, b)
  {
    var ev := a + b;
    TextedSuffix(simple, ev, a, b);
    forall i, e | 0 <= i < |a| && e in simple && a[i] == Open(e.0)
      ensures HasText(e.1, a, i + 1)
    {
      assert ev[i] == Open(e.0);
      assert HasText(e.1, ev, i + 1);
    }
  }

  lemma TextedTogether(simple: set<(string, Leaf)>, a: seq<Event>, b: seq<Event>)
    requires Texted(simple, a) && Texted(simple, b)
    ensures Texted(simple, a + b)
  {
    var ev := a + b;
    forall i, e | 0 <= i < |ev| && e in simple && ev[i] == Open(e.0)
      ensures HasText(e.1, ev, i + 1)
    {
      if i < |a| {
        assert HasText(e.1, a, i + 1);
      } else {
        assert b[i - |a|] == Open(e.0);
        assert HasText(e.1, b, i - |a| + 1);
      }
    }
  }

  /** What is printed of a conforming tree has texts that parse. */
  lemma {:induction false} RenderTexted(s: Schema, d: Dom, simple: set<(string, Leaf)>)
    requires Conforms(s, d) && TagsTell(s, simple)
    ensures Texted(simple, Render(s, d))
    decreases s, 0
  {
    match s
    case Simple(tag, leaf) =>
      var ev := Render(s, d);
      forall i, e | 0 <= i < |ev| && e in simple && ev[i] == Open(e.0)
        ensures HasText(e.1, ev, i + 1)
      {
        assert i == 0;
      }
    case Complex(tag, fields) =>
      RenderFieldsTexted(fields, d.slots, simple);
      TextedTogether(simple, [Open(tag)], RenderFields(fields, d.slots));
      TextedTogether(simple, [Open(tag)] + RenderFields(fields, d.slots), [Close(tag)]);
  }

  lemma {:induction false} RenderFieldsTexted(fs: Fields, slots: seq<seq<Dom>>, simple: set<(string, Leaf)>)
    requires ConformsFields(fs, slots) && TagsTellOf(fs, simple)
    ensures Texted(simple, RenderFields(fs, slots))
    decreases fs, 0
  {
    if fs.Field? {
      RenderListTexted(fs.sub, slots[0], simple);
      RenderFieldsTexted(fs.rest, slots[1..], simple);
      TextedTogether(simple, RenderList(fs.sub, slots[0]), RenderFields(fs.rest, slots[1..]));
    }
  }

  lemma {:induction false} RenderListTexted(sub: Schema, list: seq<Dom>, simple: set<(string, Leaf)>)
    requires ConformsList(sub, list) && TagsTell(sub, simple)
    ensures Texted(simple, RenderList(sub, list))
    decreases sub, |list| + 1
  {
    if list != [] {
      RenderTexted(sub, list[0], simple);
      RenderListTexted(sub, list[1..], simple);
      TextedTogether(simple, Render(sub, list[0]), RenderList(sub, list[1..]));
    }
  }

  /** The events begin with a start tag, if there are any. */
  predicate Starts(seg: seq<Event>) {
    seg != [] ==> seg[0].Open?
  }

  /** An accepted element whose texts parse is the print of a tree, whatever stands behind it. */
  lemma {:induction false} ElementPrinted(s: Schema, ev: seq<Event>, clock: Clock, simple: set<(string, Leaf)>)
      returns (seg: seq<Event>, d: Dom)
    requires IsOpen(ev, s.tag) && Accept(s, ev[1..], clock).Got? && SimpleTags(s) <= simple
    ensures ev == seg + Accept(s, ev[1..], clock).rest && seg != [] && Starts(seg)
    ensures Texted(simple, seg) ==> Conforms(s, d) && seg == Render(s, d)
    decreases |ev|, s, 0
  {
    match s
    case Simple(tag, leaf) =>
      d := Val(Lost);
      if ev[1].Text? {
        seg, d := [ev[0], ev[1], ev[2]], Val(ev[1].v);
      } else {
        seg := [ev[0], ev[1]];
      }
      if Texted(simple, seg) {
        assert (tag, leaf) in simple && seg[0] == Open(tag);
        assert HasText(leaf, seg, 1);
      }
    case Complex(tag, fields) =>
      var Got(slots, tail) := AcceptFields(fields, ev[1..], clock);
      var inner, printed := FieldsPrinted(fields, ev[1..], clock, simple);
      seg := Enclosed(ev, Open(tag), inner, Close(tag), tail);
      d := Struct(printed);
      if Texted(simple, seg) {
        TextedParts(simple, [Open(tag)] + inner, [Close(tag)]);
        TextedParts(simple, [Open(tag)], inner);
      }
  }

  lemma {:induction false} FieldsPrinted(fs: Fields, ev: seq<Event>, clock: Clock, simple: set<(string, Leaf)>)
      returns (seg: seq<Event>, slots: seq<seq<Dom>>)
    requires AcceptFields(fs, ev, clock).Got? && SimpleTagsOf(fs) <= simple
    ensures ev == seg + AcceptFields(fs, ev, clock).rest && Starts(seg)
    ensures Texted(simple, seg) ==> ConformsFields(fs, slots) && seg == RenderFields(fs, slots)
    decreases |ev|, fs, 0
  {
    match fs
    case Done =>
      seg, slots := [], [];
      assert ev == [] + ev;
    case Field(opt, sub, more) =>
      var ev1 := AcceptSlot(opt, sub, ev, clock).rest;
      var rest := AcceptFields(more, ev1, clock).rest;
      var a, list := SlotPrinted(opt, sub, ev, clock, simple);
      var b, others := FieldsPrinted(more, ev1, clock, simple);
      seg, slots := a + b, [list] + others;
      Assoc(a, b, rest);
      assert slots[1..] == others;
      if Texted(simple, seg) {
        TextedParts(simple, a, b);
      }
  }

  lemma {:induction false} SlotPrinted(opt: bool, sub: Schema, ev: seq<Event>, clock: Clock, simple: set<(string, Leaf)>)
      returns (seg: seq<Event>, list: seq<Dom>)
    requires AcceptSlot(opt, sub, ev, clock).Got? && SimpleTags(sub) <= simple
    ensures ev == seg + AcceptSlot(opt, sub, ev, clock).rest && Starts(seg)
    ensures Texted(simple, seg) ==> ConformsList(sub, list) && (opt || |list| == 1) && seg == RenderList(sub, list)
    decreases |ev|, sub, 2
  {
    if opt {
      seg, list := ListPrinted(sub, ev, clock, simple);
    } else {
      var d;
      seg, d := ElementPrinted(sub, ev, clock, simple);
      list := [d];
      RenderListCons(sub, d, []);
    }
  }

  lemma {:induction false} ListPrinted(sub: Schema, ev: seq<Event>, clock: Clock, simple: set<(string, Leaf)>)
      returns (seg: seq<Event>, list: seq<Dom>)
    requires AcceptList(sub, ev, clock).Got? && SimpleTags(sub) <= simple
    ensures ev == seg + AcceptList(sub, ev, clock).rest && Starts(seg)
    ensures Texted(simple, seg) ==> ConformsList(sub, list) && seg == RenderList(sub, list)
    decreases |ev|, sub, 1
  {
    if IsOpen(ev, sub.tag) {
      var ev1 := Accept(sub, ev[1..], clock).rest;
      var rest := AcceptList(sub, ev1, clock).rest;
      var a, d := ElementPrinted(sub, ev, clock, simple);
      var b, others := ListPrinted(sub, ev1, clock, simple);
      seg, list := a + b, [d] + others;
      Assoc(a, b, rest);
      RenderListCons(sub, d, others);
      if Texted(simple, seg) {
        TextedParts(simple, a, b);
      }
    } else {
      seg, list := [], [];
      assert ev == [] + ev;
    }
  }

  // ---------------------------------------------------------------- the exact condition

  /** The events of the document that was read. */
  function Read(ev: seq<Event>, rest: seq<Event>): seq<Event> {
    if |rest| <= |ev| then ev[..|ev| - |rest|] else []
  }

  /** What is in the bits of an accepted document is what was read from it, up to the loss of one trip, exactly
      if all its times have texts that parse and nothing in it is repeated. */
  lemma AcceptedArrivesExactly(s: Schema, ev: seq<Event>, clock: Clock, times: set<string>)
    requires Sound(s) && Distinct(s) && TimeTags(s, times) && AcceptDocument(s, ev, clock).Got?
    ensures var Got(e, rest) := AcceptDocument(s, ev, clock);
            && (Parse(s, Encode(s, e), true) == Ok(Norm(s, e), []) <==> Conforms(s, e) && Small(s, e))
            && (Conforms(s, e) <==> TimesParse(times, Read(ev, rest)))
            && (Small(s, e) <==> NothingRepeated(Read(ev, rest)))
  {
    var Got(e, rest) := AcceptDocument(s, ev, clock);
    var seg := ElementEvents(s, ev, clock, times);
    assert Read(ev, rest) == seg;
    ArrivesExactly(s, e);
  }

  /** An accepted document is the print of a tree exactly if all its texts parse; the tree read is then that
      tree, but for fractions of times. */
  lemma AcceptedIsPrintExactly(s: Schema, ev: seq<Event>, clock: Clock)
    requires Distinct(s) && TagsTell(s, SimpleTags(s)) && AcceptDocument(s, ev, clock).Got?
    ensures var Got(e, rest) := AcceptDocument(s, ev, clock);
            && (Texted(SimpleTags(s), Read(ev, rest)) <==> exists d :: IsPrint(s, d, ev, rest))
            && (forall d :: IsPrint(s, d, ev, rest) ==> Read(ev, rest) == Render(s, d) && Alike(UpToFraction, s, d, e))
  {
    var Got(e, rest) := AcceptDocument(s, ev, clock);
    var seg, d := ElementPrinted(s, ev, clock, SimpleTags(s));
    assert Read(ev, rest) == seg;
    if Texted(SimpleTags(s), seg) {
      assert IsPrint(s, d, ev, rest);
    }
    forall d | IsPrint(s, d, ev, rest)
      ensures Read(ev, rest) == Render(s, d) && Alike(UpToFraction, s, d, e) && Texted(SimpleTags(s), Read(ev, rest))
    {
      assert Read(ev, rest) == Render(s, d);
      PrintIsAccepted(s, d, ev, rest, clock);
      RenderTexted(s, d, SimpleTags(s));
    }
  }

  /** What arrives of a print: its numbers, times compared on seconds, exactly if nothing is repeated in it and
      its numbers are in range. */
  lemma PrintArrivesExactly(s: Schema, d: Dom, e: Dom)
    requires Sound(s) && Conforms(s, d) && Alike(UpToFraction, s, d, e)
    ensures var p := Parse(s, Encode(s, e), true);
            p.Ok? && p.rest == [] && Alike(UpToFraction, s, d, p.v) <==> Small(s, e) && InRange(UpToFraction, s, d)
  {
    AlikeShape(UpToFraction, s, d, e);
    NormExact(UpToFraction, s, d, e);
    assert Encode(s, e) + [] == Encode(s, e);
    ParseOfEncode(s, e, [], false);
    BoundedParse(s, Encode(s, e));
    if Small(s, e) {
      ParseOfEncode(s, e, [], true);
    } else if Parse(s, Encode(s, e), true).Ok? {
      ConformingIsShaped(s, e);
      NormShape(s, e);
    }
  }

  lemma {:induction false} ConformingIsShaped(s: Schema, d: Dom)
    requires Conforms(s, d)
    ensures Shaped(s, d)
    decreases s, 0
  {
    if s.Complex? {
      ConformingFieldsAreShaped(s.fields, d.slots);
    }
  }

  lemma {:induction false} ConformingFieldsAreShaped(fs: Fields, slots: seq<seq<Dom>>)
    requires ConformsFields(fs, slots)
    ensures ShapedFields(fs, slots)
    decreases fs, 0
  {
    if fs.Field? {
      ConformingListIsShaped(fs.sub, slots[0]);
      ConformingFieldsAreShaped(fs.rest, slots[1..]);
    }
  }

  lemma {:induction false} ConformingListIsShaped(sub: Schema, list: seq<Dom>)
    requires ConformsList(sub, list)
    ensures ShapedList(sub, list)
    decreases sub, |list| + 1
  {
    if list != [] {
      ConformingIsShaped(sub, list[0]);
      ConformingListIsShaped(sub, list[1..]);
    }
  }

  /** The node has got the tree of which the document is the print, times compared on seconds. */
  ghost predicate GotAsSent(s: Schema, ev: seq<Event>, rest: seq<Event>, r: Bin2Dom.Outcome, d: Dom, left: seq<bool>) {
    r.Fine? && left == [] && exists sent :: IsPrint(s, sent, ev, rest) && Alike(UpToFraction, s, sent, d)
  }

  /** All texts of the document parse, nothing in it is repeated, and its numbers are in range. */
  ghost predicate Deliverable(s: Schema, ev: seq<Event>, rest: seq<Event>) {
    && Texted(SimpleTags(s), Read(ev, rest)) && NothingRepeated(Read(ev, rest))
    && forall sent :: IsPrint(s, sent, ev, rest) ==> InRange(UpToFraction, s, sent)
  }

  /** What the node makes of the bits of an accepted document. */
  ghost predicate Arrival(s: Schema, times: set<string>, ev: seq<Event>, e: Dom, rest: seq<Event>,
                          r: Bin2Dom.Outcome, d: Dom, left: seq<bool>) {
    && (r.Fine? && d == Norm(s, e) && left == [] <==> TimesParse(times, Read(ev, rest)) && NothingRepeated(Read(ev, rest)))
    && (TimesParse(times, Read(ev, rest)) && NothingRepeated(Read(ev, rest)) ==>
          (Alike(UpToFraction, s, e, d) <==> InRange(UpToFraction, s, e)))
    && (GotAsSent(s, ev, rest, r, d, left) <==> Deliverable(s, ev, rest))
  }

  lemma SentArrivesExactly(s: Schema, ev: seq<Event>, clock: Clock, times: set<string>,
                           r: Bin2Dom.Outcome, d: Dom, left: seq<bool>)
    requires Sound(s) && Distinct(s) && TimeTags(s, times) && TagsTell(s, SimpleTags(s)) && AcceptDocument(s, ev, clock).Got?
    requires var p := Parse(s, Encode(s, AcceptDocument(s, ev, clock).v), true);
             r.Fine? == p.Ok? && (p.Ok? ==> d == p.v && left == p.rest)
    ensures var rest := AcceptDocument(s, ev, clock).rest;
            GotAsSent(s, ev, rest, r, d, left) <==> Deliverable(s, ev, rest)
  {
    var Got(e, rest) := AcceptDocument(s, ev, clock);
    AcceptedArrivesExactly(s, ev, clock, times);
    AcceptedIsPrintExactly(s, ev, clock);
    forall sent | IsPrint(s, sent, ev, rest)
      ensures r.Fine? && left == [] && Alike(UpToFraction, s, sent, d) <==>
              NothingRepeated(Read(ev, rest)) && InRange(UpToFraction, s, sent)
    {
      PrintArrivesExactly(s, sent, e);
    }
    forall sent, other | IsPrint(s, sent, ev, rest) && IsPrint(s, other, ev, rest)
      ensures sent == other
    {
      RenderInjective(s, sent, rest, other, rest);
    }
  }

  /** sax2bin at the gateway and bin2dom at the node, on any event list. A document is accepted or not. What was
      read from an accepted one arrives exactly if its times parse and nothing is repeated; what it says arrives
      exactly if all its texts parse, nothing is repeated, and its numbers are in range. */
  method Forward(table: seq<State>, s: Schema, ev: seq<Event>, clock: Clock, ghost times: set<string>)
      returns (accepted: bool, behind: seq<Event>, r: Bin2Dom.Outcome, d: Dom, left: seq<bool>)
    requires Laid(table, s) && Sound(s) && Distinct(s) && TimeTags(s, times) && TagsTell(s, SimpleTags(s))
    ensures accepted == AcceptDocument(s, ev, clock).Got?
    ensures accepted ==>
              behind == AcceptDocument(s, ev, clock).rest
              && Arrival(s, times, ev, AcceptDocument(s, ev, clock).v, behind, r, d, left)
  {
    var writer := new BitWriter();
    accepted, behind := Sax2Bin.Sax2BinRun(table, s, ev, clock, writer);
    r, d, left := Bin2Dom.Fine, Zero(s), [];
    if accepted {
      ghost var e := AcceptDocument(s, ev, clock).v;
      AcceptedArrivesExactly(s, ev, clock, times);
      assert writer.bits == Encode(s, e);
      var reader := new BitReader(writer.bits);
      r, d := Bin2Dom.Bin2DomRun(table, s, reader);
      left := reader.rest;
      if Conforms(s, e) && Small(s, e) {
        AlikeSelf(s, e);
        NormExact(UpToFraction, s, e, e);
      }
      SentArrivesExactly(s, ev, clock, times, r, d, left);
    }
  }

  const TIME_TAGS := {"sens:NewTime"}

  lemma ControlTimes()
    ensures TimeTags(StatusControl(), TIME_TAGS)
  {
    ConfigTimes("sens:SensorConfig");
    TwoOptionalTimes("sens:StatusControl", SensorConfig("sens:SensorConfig"), Simple("sens:NewTime", TIME), TIME_TAGS);
  }

  lemma TwoOptionalTimes(tag: string, a: Schema, b: Schema, times: set<string>)
    requires tag !in times && TimeTags(a, times) && TimeTags(b, times)
    ensures TimeTags(Complex(tag, Field(true, a, Field(true, b, Done))), times)
  {
    assert TimeTagsOf(Field(true, b, Done), times);
  }

  lemma ConfigTimes(tag: string)
    requires tag !in TIME_TAGS
    ensures TimeTags(SensorConfig(tag), TIME_TAGS)
  {
    assert TimeTags(RateConfig("sens:Acceleration"), TIME_TAGS) && TimeTags(RateConfig("sens:Audio"), TIME_TAGS);
    assert TimeTags(RateConfig("sens:Light"), TIME_TAGS) && TimeTags(RateConfig("sens:AmbientLight"), TIME_TAGS);
    assert TimeTags(RateConfig("sens:Force"), TIME_TAGS) && TimeTags(RateConfig("sens:Temperature"), TIME_TAGS);
  }

  lemma ControlTagsTell()
    ensures TagsTell(StatusControl(), SimpleTags(StatusControl()))
    ensures SimpleTags(StatusControl()) == {("sens:rate", BYTE), ("sens:NewTime", TIME)}
  {
    var simple := {("sens:rate", BYTE), ("sens:NewTime", TIME)};
    ConfigTags(simple);
    var config, time := SensorConfig("sens:SensorConfig"), Simple("sens:NewTime", TIME);
    assert SimpleTagsOf(Field(true, time, Done)) == {("sens:NewTime", TIME)};
    assert SimpleTags(StatusControl()) == simple;
    assert TagsTellOf(Field(true, time, Done), simple);
  }

  lemma ConfigTags(simple: set<(string, Leaf)>)
    requires simple == {("sens:rate", BYTE), ("sens:NewTime", TIME)}
    ensures TagsTell(SensorConfig("sens:SensorConfig"), simple)
    ensures SimpleTags(SensorConfig("sens:SensorConfig")) == {("sens:rate", BYTE)}
  {
    var fs := OneMoreRate("sens:Temperature", Done, simple);
    fs := OneMoreRate("sens:Force", fs, simple);
    fs := OneMoreRate("sens:AmbientLight", fs, simple);
    fs := OneMoreRate("sens:Light", fs, simple);
    fs := OneMoreRate("sens:Audio", fs, simple);
    fs := OneMoreRate("sens:Acceleration", fs, simple);
    assert SensorConfig("sens:SensorConfig") == Complex("sens:SensorConfig", fs);
  }

  lemma OneMoreRate(tag: string, rest: Fields, simple: set<(string, Leaf)>) returns (fs: Fields)
    requires simple == {("sens:rate", BYTE), ("sens:NewTime", TIME)} && tag != "sens:rate" && tag != "sens:NewTime"
    requires TagsTellOf(rest, simple) && SimpleTagsOf(rest) <= {("sens:rate", BYTE)}
    ensures fs == Field(true, RateConfig(tag), rest) && TagsTellOf(fs, simple) && SimpleTagsOf(fs) == {("sens:rate", BYTE)}
  {
    fs := Field(true, RateConfig(tag), rest);
    RateTags(tag, simple);
  }

  lemma RateTags(tag: string, simple: set<(string, Leaf)>)
    requires simple == {("sens:rate", BYTE), ("sens:NewTime", TIME)} && tag != "sens:rate" && tag != "sens:NewTime"
    ensures TagsTell(RateConfig(tag), simple) && SimpleTags(RateConfig(tag)) == {("sens:rate", BYTE)}
  {
    assert TagsTell(Simple("sens:rate", BYTE), simple);
  }

  /** That for the control messages, on every event list. */
  method ForwardControl(ev: seq<Event>, clock: Clock)
      returns (accepted: bool, behind: seq<Event>, r: Bin2Dom.Outcome, d: Dom, left: seq<bool>)
    ensures accepted == AcceptDocument(StatusControl(), ev, clock).Got?
    ensures accepted ==>
              behind == AcceptDocument(StatusControl(), ev, clock).rest
              && Arrival(StatusControl(), TIME_TAGS, ev, AcceptDocument(StatusControl(), ev, clock).v, behind, r, d, left)
  {
    StatusControlLaid();
    StatusControlSound();
    ControlTimes();
    ControlTagsTell();
    accepted, behind, r, d, left := Forward(STATUS_CONTROL_TABLE, StatusControl(), ev, clock, TIME_TAGS);
  }
}
