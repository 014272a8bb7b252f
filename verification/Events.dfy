/** XML documents as event lists, and the grammar of a schema. */
module Events {
  import opened Sequences
  import opened Wire

  /** Start tags, texts and end tags. A text that does not parse as the value expected is Text(Lost). */
  datatype Event = Open(tag: string) | Text(v: Value) | Close(tag: string)

  // ---------------------------------------------------------------- printing

  function Render(s: Schema, d: Dom): seq<Event>
    decreases s, 0
  {
    match s
    case Simple(tag, _) => if d.Val? then [Open(tag), Text(d.v), Close(tag)] else []
    case Complex(tag, fields) =>
      if d.Struct? then [Open(tag)] + RenderFields(fields, d.slots) + [Close(tag)] else []
  }

  function RenderFields(fs: Fields, slots: seq<seq<Dom>>): seq<Event>
    decreases fs, 0
  {
    match fs
    case Done => []
    case Field(_, sub, rest) =>
      if slots == [] then [] else RenderList(sub, slots[0]) + RenderFields(rest, slots[1..])
  }

  function RenderList(sub: Schema, list: seq<Dom>): seq<Event>
    decreases sub, |list| + 1
  {
    if list == [] then [] else Render(sub, list[0]) + RenderList(sub, list[1..])
  }

  lemma RenderListCons(sub: Schema, d: Dom, list: seq<Dom>)
    ensures RenderList(sub, [d] + list) == Render(sub, d) + RenderList(sub, list)
    ensures Conforms(sub, d) && ConformsList(sub, list) ==> ConformsList(sub, [d] + list)
    ensures RenderList(sub, [d]) == Render(sub, d)
    ensures Conforms(sub, d) ==> ConformsList(sub, [d])
  {
    assert ([d] + list)[1..] == list;
    assert [d][1..] == [];
    assert Render(sub, d) + [] == Render(sub, d);
  }

  /** Every end tag closes the innermost open element, and every element is closed. */
  predicate WellNested(ev: seq<Event>, open: seq<string>) {
    if ev == [] then open == []
    else
      match ev[0]
      case Open(tag) => WellNested(ev[1..], open + [tag])
      case Text(_) => WellNested(ev[1..], open)
      case Close(tag) => open != [] && open[|open| - 1] == tag && WellNested(ev[1..], open[..|open| - 1])
  }

  lemma {:induction false} RenderWellNested(s: Schema, d: Dom, rest: seq<Event>, open: seq<string>)
    requires Conforms(s, d)
    ensures WellNested(Render(s, d) + rest, open) == WellNested(rest, open)
    decreases s, 0
  {
    var ev := Render(s, d) + rest;
    assert (open + [s.tag])[..|open|] == open;
    match s
    case Simple(tag, _) =>
      assert ev[1..][1..][1..] == rest;
      assert WellNested(ev[1..][1..], open + [tag]) == WellNested(rest, open);
    case Complex(tag, fields) =>
      var tail := [Close(tag)] + rest;
      assert ev[1..] == RenderFields(fields, d.slots) + tail;
      RenderFieldsWellNested(fields, d.slots, tail, open + [tag]);
      assert tail[1..] == rest;
  }

  lemma {:induction false} RenderFieldsWellNested(fs: Fields, slots: seq<seq<Dom>>, rest: seq<Event>, open: seq<string>)
    requires ConformsFields(fs, slots)
    ensures WellNested(RenderFields(fs, slots) + rest, open) == WellNested(rest, open)
    decreases fs, 0
  {
    match fs
    case Done =>
      assert [] + rest == rest;
    case Field(_, sub, more) =>
      Assoc(RenderList(sub, slots[0]), RenderFields(more, slots[1..]), rest);
      RenderListWellNested(sub, slots[0], RenderFields(more, slots[1..]) + rest, open);
      RenderFieldsWellNested(more, slots[1..], rest, open);
  }

  lemma {:induction false} RenderListWellNested(sub: Schema, list: seq<Dom>, rest: seq<Event>, open: seq<string>)
    requires ConformsList(sub, list)
    ensures WellNested(RenderList(sub, list) + rest, open) == WellNested(rest, open)
    decreases sub, |list| + 1
  {
    if list == [] {
      assert [] + rest == rest;
    } else {
      Assoc(Render(sub, list[0]), RenderList(sub, list[1..]), rest);
      RenderWellNested(sub, list[0], RenderList(sub, list[1..]) + rest, open);
      RenderListWellNested(sub, list[1..], rest, open);
    }
  }

  // ---------------------------------------------------------------- reading

  /** Where the fraction of a time comes from: the text itself, or the variable that is never assigned,
      whose content when n events are left is f(n). */
  datatype Clock = FromText | Stale(f: nat -> int)

  datatype Reading<+T> = Got(v: T, rest: seq<Event>) | Fault

  predicate IsOpen(ev: seq<Event>, tag: string) {
    ev != [] && ev[0] == Open(tag)
  }

  predicate IsClose(ev: seq<Event>, tag: string) {
    ev != [] && ev[0] == Close(tag)
  }

  function Junk(clock: Clock, n: nat): int {
    if clock.Stale? then clock.f(n) else 0
  }

  /** The value taken from the text of a simple element; junk, or nothing, when there is no such text. */
  function TextValue(leaf: Leaf, ev: seq<Event>, clock: Clock): Value {
    if ev != [] && ev[0].Text? && KindMatches(leaf, ev[0].v)
    then if clock.Stale? && ev[0].v.Time? then Time(ev[0].v.sec, clock.f(|ev|)) else ev[0].v
    else if leaf.IntLeaf? then Int(Junk(clock, |ev|)) else Lost
  }

  function AfterText(ev: seq<Event>): seq<Event> {
    if ev != [] && ev[0].Text? then ev[1..] else ev
  }

  /** Reads an element whose start tag has been consumed, up to and including its end tag. */
  function Accept(s: Schema, ev: seq<Event>, clock: Clock): (r: Reading<Dom>)
    ensures r.Got? ==> |r.rest| < |ev|
    decreases |ev|, s, 0
  {
    match s
    case Simple(tag, leaf) =>
      var rest := AfterText(ev);
      if IsClose(rest, tag) then Got(Val(TextValue(leaf, ev, clock)), rest[1..]) else Fault
    case Complex(tag, fields) =>
      match AcceptFields(fields, ev, clock)
      case Fault => Fault
      case Got(slots, rest) => if IsClose(rest, tag) then Got(Struct(slots), rest[1..]) else Fault
  }

  function AcceptFields(fs: Fields, ev: seq<Event>, clock: Clock): (r: Reading<seq<seq<Dom>>>)
    ensures r.Got? ==> |r.rest| <= |ev|
    decreases |ev|, fs, 0
  {
    match fs
    case Done => Got([], ev)
    case Field(opt, sub, rest) =>
      match AcceptSlot(opt, sub, ev, clock)
      case Fault => Fault
      case Got(list, ev1) =>
        match AcceptFields(rest, ev1, clock)
        case Fault => Fault
        case Got(slots, ev2) => Got([list] + slots, ev2)
  }

  function AcceptSlot(opt: bool, sub: Schema, ev: seq<Event>, clock: Clock): (r: Reading<seq<Dom>>)
    ensures r.Got? ==> |r.rest| <= |ev|
    decreases |ev|, sub, 2
  {
    if opt then AcceptList(sub, ev, clock)
    else if !IsOpen(ev, sub.tag) then Fault
    else
      match Accept(sub, ev[1..], clock)
      case Fault => Fault
      case Got(d, rest) => Got([d], rest)
  }

  /** Occurrences of an optional element for as long as the next event opens one. */
  function AcceptList(sub: Schema, ev: seq<Event>, clock: Clock): (r: Reading<seq<Dom>>)
    ensures r.Got? ==> |r.rest| <= |ev|
    decreases |ev|, sub, 1
  {
    if !IsOpen(ev, sub.tag) then Got([], ev)
    else
      match Accept(sub, ev[1..], clock)
      case Fault => Fault
      case Got(d, ev1) =>
        match AcceptList(sub, ev1, clock)
        case Fault => Fault
        case Got(list, ev2) => Got([d] + list, ev2)
  }

  /** Reads a whole document. */
  function AcceptDocument(s: Schema, ev: seq<Event>, clock: Clock): Reading<Dom> {
    if IsOpen(ev, s.tag) then Accept(s, ev[1..], clock) else Fault
  }

  // ---------------------------------------------------------------- reading what was printed

  function Tags(fs: Fields): set<string> {
    match fs
    case Done => {}
    case Field(_, sub, rest) => {sub.tag} + Tags(rest)
  }

  /** No structure has two fields with the same tag. */
  predicate Distinct(s: Schema) {
    match s
    case Simple(_, _) => true
    case Complex(_, fields) => DistinctFields(fields)
  }

  predicate DistinctFields(fs: Fields) {
    match fs
    case Done => true
    case Field(_, sub, rest) => sub.tag !in Tags(rest) && Distinct(sub) && DistinctFields(rest)
  }

  lemma RenderHead(s: Schema, d: Dom)
    requires Conforms(s, d)
    ensures Render(s, d) != [] && Render(s, d)[0] == Open(s.tag)
  {
  }

  lemma {:induction false} NextTag(fs: Fields, slots: seq<seq<Dom>>, rest: seq<Event>, tag: string)
    requires ConformsFields(fs, slots) && tag !in Tags(fs) && !IsOpen(rest, tag)
    ensures !IsOpen(RenderFields(fs, slots) + rest, tag)
    decreases fs
  {
    match fs
    case Done =>
      assert [] + rest == rest;
    case Field(_, sub, more) =>
      NextTag(more, slots[1..], rest, tag);
      if slots[0] == [] {
        assert RenderFields(fs, slots) + rest == RenderFields(more, slots[1..]) + rest;
      } else {
        RenderHead(sub, slots[0][0]);
      }
  }

  /** The reading is d and `rest`, up to the fractions of times if these do not come from the text. */
  ghost predicate ReadsAs(clock: Clock, s: Schema, r: Reading<Dom>, d: Dom, rest: seq<Event>) {
    r.Got? && r.rest == rest && Alike(UpToFraction, s, d, r.v) && (clock.FromText? ==> r.v == d)
  }

  ghost predicate FieldsReadAs(clock: Clock, fs: Fields, r: Reading<seq<seq<Dom>>>, slots: seq<seq<Dom>>, rest: seq<Event>) {
    r.Got? && r.rest == rest && AlikeFields(UpToFraction, fs, slots, r.v) && (clock.FromText? ==> r.v == slots)
  }

  ghost predicate ListReadsAs(clock: Clock, sub: Schema, r: Reading<seq<Dom>>, list: seq<Dom>, rest: seq<Event>) {
    r.Got? && r.rest == rest && AlikeList(UpToFraction, sub, list, r.v) && (clock.FromText? ==> r.v == list)
  }

  /** A printed tree is read back exactly, but for fractions that do not come from the text. What stands behind
      it is not looked at. */
  lemma {:induction false} AcceptOfRender(s: Schema, d: Dom, rest: seq<Event>, clock: Clock)
    requires Conforms(s, d) && Distinct(s)
    ensures Render(s, d) != [] && Render(s, d)[0] == Open(s.tag)
    ensures ReadsAs(clock, s, Accept(s, Render(s, d)[1..] + rest, clock), d, rest)
    decreases s, 0
  {
    var ev := Render(s, d)[1..] + rest;
    match s
    case Simple(tag, _) =>
      assert ev == [Text(d.v), Close(tag)] + rest;
      assert AfterText(ev)[1..] == rest;
    case Complex(tag, fields) =>
      var tail := [Close(tag)] + rest;
      assert ev == RenderFields(fields, d.slots) + tail;
      AcceptOfRenderFields(fields, d.slots, tail, clock);
      assert tail[1..] == rest;
  }

  lemma {:induction false} AcceptOfRenderFields(fs: Fields, slots: seq<seq<Dom>>, rest: seq<Event>, clock: Clock)
    requires ConformsFields(fs, slots) && DistinctFields(fs)
    requires forall tag :: tag in Tags(fs) ==> !IsOpen(rest, tag)
    ensures FieldsReadAs(clock, fs, AcceptFields(fs, RenderFields(fs, slots) + rest, clock), slots, rest)
    decreases fs, 0
  {
    match fs
    case Done =>
      assert [] + rest == rest;
    case Field(opt, sub, more) =>
      var ev, tail := RenderFields(fs, slots) + rest, RenderFields(more, slots[1..]) + rest;
      NextTag(more, slots[1..], rest, sub.tag);
      assert ev == RenderList(sub, slots[0]) + tail by {
        Assoc(RenderList(sub, slots[0]), RenderFields(more, slots[1..]), rest);
      }
      AcceptOfRenderSlot(opt, sub, slots[0], tail, clock);
      AcceptOfRenderFields(more, slots[1..], rest, clock);
      var list, others := AcceptSlot(opt, sub, ev, clock).v, AcceptFields(more, tail, clock).v;
      assert ([list] + others)[1..] == others;
      assert [slots[0]] + slots[1..] == slots;
  }

  lemma {:induction false} AcceptOfRenderSlot(opt: bool, sub: Schema, list: seq<Dom>, rest: seq<Event>, clock: Clock)
    requires ConformsList(sub, list) && (opt || |list| == 1) && Distinct(sub) && !IsOpen(rest, sub.tag)
    ensures ListReadsAs(clock, sub, AcceptSlot(opt, sub, RenderList(sub, list) + rest, clock), list, rest)
    decreases sub, |list| + 2
  {
    if opt {
      AcceptOfRenderList(sub, list, rest, clock);
    } else {
      var d := list[0];
      AcceptOfRender(sub, d, rest, clock);
      assert list == [d];
      RenderListCons(sub, d, []);
      var ev := Render(sub, d) + rest;
      assert ev[1..] == Render(sub, d)[1..] + rest;
      AlikeOne(sub, d, Accept(sub, ev[1..], clock).v);
    }
  }

  lemma AlikeOne(sub: Schema, d: Dom, e: Dom)
    requires Alike(UpToFraction, sub, d, e)
    ensures AlikeList(UpToFraction, sub, [d], [e])
  {
    assert [d][1..] == [] && [e][1..] == [];
  }

  /** One more element in front of a list. */
  lemma AcceptListMore(sub: Schema, ev: seq<Event>, clock: Clock, d: Dom, ev1: seq<Event>,
                       list: seq<Dom>, ev2: seq<Event>)
    requires IsOpen(ev, sub.tag)
    requires ReadsAs(clock, sub, Accept(sub, ev[1..], clock), d, ev1)
    requires ListReadsAs(clock, sub, AcceptList(sub, ev1, clock), list, ev2)
    ensures ListReadsAs(clock, sub, AcceptList(sub, ev, clock), [d] + list, ev2)
  {
    var e, more := Accept(sub, ev[1..], clock).v, AcceptList(sub, ev1, clock).v;
    assert ([e] + more)[1..] == more && ([d] + list)[1..] == list;
  }

  lemma {:induction false} AcceptOfRenderList(sub: Schema, list: seq<Dom>, rest: seq<Event>, clock: Clock)
    requires ConformsList(sub, list) && Distinct(sub) && !IsOpen(rest, sub.tag)
    ensures ListReadsAs(clock, sub, AcceptList(sub, RenderList(sub, list) + rest, clock), list, rest)
    decreases sub, |list| + 1
  {
    if list == [] {
      assert [] + rest == rest;
    } else {
      var d, more := list[0], list[1..];
      var tail := RenderList(sub, more) + rest;
      AcceptOfRender(sub, d, tail, clock);
      AcceptOfRenderList(sub, more, rest, clock);
      DropFirst(Render(sub, d), RenderList(sub, more), rest);
      AcceptListMore(sub, RenderList(sub, list) + rest, clock, d, tail, more, rest);
      assert [d] + more == list;
    }
  }

  lemma DropFirst<T>(a: seq<T>, b: seq<T>, c: seq<T>)
    requires a != []
    ensures a + b + c != [] && (a + b + c)[0] == a[0] && (a + b + c)[1..] == a[1..] + (b + c)
  {
  }
}
