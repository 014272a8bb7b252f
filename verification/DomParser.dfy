/** Building an element tree from a stream of tags and text. */
module DomParser {
  import opened Options
  import opened Sequences
  import opened DomTree

  /** Open(name, false) is an empty-element tag, after which soap->body is 0. */
  datatype Token = Open(name: string, body: bool) | Close(name: string) | Text(text: string)

  // ---------------------------------------------------------------- documents

  /** A list of siblings as values. Data is kept for elements that have no child but a body. */
  datatype Doc = End | Element(name: string, data: Option<string>, kids: Doc, rest: Doc)

  ghost predicate Printable(d: Doc) {
    d.End? || ((d.kids.Element? ==> d.data.None?) && Printable(d.kids) && Printable(d.rest))
  }

  function PrintText(t: Option<string>): seq<Token> {
    if t.None? || t.value == "" then [] else [Text(t.value)]
  }

  function Print(d: Doc): seq<Token>
    decreases d, 1
  {
    if d.End? then [] else PrintOne(d) + Print(d.rest)
  }

  /** The first of the siblings. */
  function PrintOne(d: Doc): seq<Token>
    requires d.Element?
    decreases d, 0
  {
    if d.kids.End? && d.data.None? then [Open(d.name, false)]
    else [Open(d.name, true)] + PrintText(d.data) + Print(d.kids) + [Close(d.name)]
  }

  /** Names in the order of start tags. */
  function OpenNames(ts: seq<Token>): seq<string> {
    if ts == [] then [] else (if ts[0].Open? then [ts[0].name] else []) + OpenNames(ts[1..])
  }

  function Names(d: Doc): seq<string> {
    if d.End? then [] else [d.name] + Names(d.kids) + Names(d.rest)
  }

  // ---------------------------------------------------------------- the grammar, as a parser on values

  /** NoTag: the next token is no start tag (SOAP_NO_TAG). Failed: any other error. */
  datatype Parsed = NoTag | Failed | Got(doc: Doc, rest: seq<Token>)

  function Finish(name: string, data: Option<string>, kids: Doc, ts: seq<Token>): (r: Parsed)
    ensures r.Got? ==> |r.rest| < |ts|
    ensures !r.NoTag?
  {
    if ts != [] && ts[0] == Close(name) then Got(Element(name, data, kids, End), ts[1..]) else Failed
  }

  function ParseElement(ts: seq<Token>): (r: Parsed)
    ensures r.Got? ==> |r.rest| < |ts|
    decreases |ts|, 0
  {
    if ts == [] then Failed
    else if !ts[0].Open? then NoTag
    else if !ts[0].body then Got(Element(ts[0].name, None, End, End), ts[1..])
    else ParseBody(ts[0].name, ts[1..])
  }

  /** After a start tag. */
  function ParseBody(name: string, ts: seq<Token>): (r: Parsed)
    ensures r.Got? ==> |r.rest| < |ts|
    ensures !r.NoTag?
    decreases |ts|, 2
  {
    if ts == [] then Failed
    else if ts[0].Open? then
      var k := ParseChildren(ts);
      if k.Got? then Finish(name, None, k.doc, k.rest) else Failed
    else if ts[0].Text? then Finish(name, Some(ts[0].text), End, ts[1..])
    else Finish(name, Some(""), End, ts)
  }

  function ParseChildren(ts: seq<Token>): (r: Parsed)
    ensures r.Got? ==> |r.rest| <= |ts|
    ensures !r.NoTag?
    decreases |ts|, 1
  {
    var c := ParseElement(ts);
    match c
    case NoTag => Got(End, ts)
    case Failed => Failed
    case Got(d, rest) =>
      var m := ParseChildren(rest);
      if m.Got? then Got(Chain(d, m.doc), m.rest) else Failed
  }

  /** One sibling list behind another. */
  function Chain(d: Doc, e: Doc): Doc {
    if d.End? then e else d.(rest := Chain(d.rest, e))
  }

  function Prepended(d: Doc, r: Parsed): Parsed {
    if r.Got? then Got(Chain(d, r.doc), r.rest) else Failed
  }

  lemma {:induction false} ChainChain(a: Doc, b: Doc, c: Doc)
    ensures Chain(Chain(a, b), c) == Chain(a, Chain(b, c))
  {
    if a.Element? {
      ChainChain(a.rest, b, c);
    }
  }

  lemma {:induction false} ChainEnd(d: Doc)
    ensures Chain(d, End) == d
  {
    if d.Element? {
      ChainEnd(d.rest);
    }
  }

  /** The loop over the children, one child on. */
  lemma OneMoreChild(done: Doc, ts: seq<Token>)
    requires ParseElement(ts).Got?
    ensures Prepended(done, ParseChildren(ts)) ==
            Prepended(Chain(done, ParseElement(ts).doc), ParseChildren(ParseElement(ts).rest))
  {
    var r := ParseElement(ts);
    var m := ParseChildren(r.rest);
    if m.Got? {
      ChainChain(done, r.doc, m.doc);
    }
  }

  lemma NoMoreChild(done: Doc, ts: seq<Token>)
    requires !ParseElement(ts).Got?
    ensures Prepended(done, ParseChildren(ts)) == if ParseElement(ts).NoTag? then Got(done, ts) else Failed
  {
    ChainEnd(done);
  }

  // ---------------------------------------------------------------- round trips

  lemma NamesOfConcat(s: seq<Token>, t: seq<Token>)
    ensures OpenNames(s + t) == OpenNames(s) + OpenNames(t)
  {
    if s == [] {
      assert s + t == t;
    } else {
      assert (s + t)[0] == s[0] && (s + t)[1..] == s[1..] + t;
      NamesOfConcat(s[1..], t);
    }
  }

  /** Start tags come in document order. */
  lemma {:induction false} PrintedNames(d: Doc)
    ensures OpenNames(Print(d)) == Names(d)
  {
    if d.Element? {
      PrintedNames(d.kids);
      PrintedNames(d.rest);
      NamesOfConcat(PrintOne(d), Print(d.rest));
      if !(d.kids.End? && d.data.None?) {
        NamesOfConcat([Open(d.name, true)] + PrintText(d.data) + Print(d.kids), [Close(d.name)]);
        NamesOfConcat([Open(d.name, true)] + PrintText(d.data), Print(d.kids));
        NamesOfConcat([Open(d.name, true)], PrintText(d.data));
      }
    }
  }

  /** What is printed is parsed back, and nothing behind it is consumed. */
  lemma {:induction false} ParseOfPrint(d: Doc, ts: seq<Token>)
    requires Printable(d) && ts != [] && !ts[0].Open?
    ensures ParseChildren(Print(d) + ts) == Got(d, ts)
    decreases d
  {
    if d.End? {
      assert Print(d) + ts == ts;
    } else {
      ParseOfOne(d, Print(d.rest) + ts);
      ParseOfPrint(d.rest, ts);
      assert PrintOne(d) + (Print(d.rest) + ts) == Print(d) + ts;
      assert Chain(d.(rest := End), d.rest) == d;
    }
  }

  lemma {:induction false} ParseOfOne(d: Doc, ts: seq<Token>)
    requires d.Element? && Printable(d)
    ensures ParseElement(PrintOne(d) + ts) == Got(d.(rest := End), ts)
    decreases d, 0
  {
    var one := PrintOne(d);
    var all := one + ts;
    if d.kids.End? && d.data.None? {
      assert all[1..] == ts;
    } else {
      var close := [Close(d.name)] + ts;
      assert close[1..] == ts;
      if d.kids.Element? {
        ParseOfPrint(d.kids, close);
        assert all[1..] == Print(d.kids) + close;
        FirstIsOpen(d.kids);
      } else {
        assert Print(d.kids) == [];
        assert all[1..] == PrintText(d.data) + close;
        if d.data.value != "" {
          assert all[1..][0] == Text(d.data.value) && all[1..][1..] == close;
        } else {
          assert all[1..] == close;
        }
      }
    }
  }

  lemma FirstIsOpen(d: Doc)
    requires d.Element?
    ensures Print(d) != [] && Print(d)[0].Open?
  {
  }

  ghost predicate NoEmptyText(ts: seq<Token>) {
    forall i :: 0 <= i < |ts| ==> ts[i] != Text("")
  }

  lemma ChainOne(d: Doc, e: Doc)
    requires d.Element? && d.rest.End?
    ensures Chain(d, e) == d.(rest := e) && Print(Chain(d, e)) == Print(d) + Print(e)
    ensures Printable(d) && Printable(e) ==> Printable(Chain(d, e))
  {
    assert Chain(d.rest, e) == e;
    assert PrintOne(d.(rest := e)) == PrintOne(d);
  }

  lemma EmptyFreeTail(a: seq<Token>, b: seq<Token>)
    requires NoEmptyText(a + b)
    ensures NoEmptyText(b)
  {
    assert forall i :: 0 <= i < |b| ==> (a + b)[|a| + i] == b[i];
  }

  /** What is parsed is what was printed. */
  lemma {:induction false} PrintOfElement(ts: seq<Token>)
    requires NoEmptyText(ts) && ParseElement(ts).Got?
    ensures var r := ParseElement(ts);
            r.doc.Element? && r.doc.rest.End? && Printable(r.doc) && ts == Print(r.doc) + r.rest
    decreases |ts|, 0
  {
    var r := ParseElement(ts);
    assert ts == [ts[0]] + ts[1..];
    if ts[0].body {
      var name, us := ts[0].name, ts[1..];
      if us[0].Open? {
        PrintOfChildren(us);
        var k := ParseChildren(us);
        assert ParseElement(us).Got? by { assert !ParseElement(us).NoTag?; }
        assert k.rest == [Close(name)] + r.rest;
      } else if us[0].Text? {
        assert us == [us[0]] + us[1..];
        assert us[1..] == [Close(name)] + r.rest;
      } else {
        assert us == [Close(name)] + r.rest;
      }
    }
  }

  lemma {:induction false} PrintOfChildren(ts: seq<Token>)
    requires NoEmptyText(ts) && ParseChildren(ts).Got?
    ensures var r := ParseChildren(ts);
            && Printable(r.doc) && ts == Print(r.doc) + r.rest && NoEmptyText(r.rest)
            && (ts != [] && ts[0].Open? ==> r.doc.Element?)
    decreases |ts|, 1
  {
    var c := ParseElement(ts);
    if c.Got? {
      PrintOfElement(ts);
      EmptyFreeTail(Print(c.doc), c.rest);
      PrintOfChildren(c.rest);
      var m := ParseChildren(c.rest);
      ChainOne(c.doc, m.doc);
      Assoc(Print(c.doc), Print(m.doc), m.rest);
    }
  }

  // ---------------------------------------------------------------- the tree

  function NameOf(e: Elt): string {
    if e.name.Some? then e.name.value else ""
  }

  function NamesOf(s: seq<Elt>): (r: seq<string>)
    ensures |r| == |s|
  {
    seq(|s|, i requires 0 <= i < |s| => NameOf(s[i]))
  }

  /** The document that a forest stands for. */
  ghost function Read(v: View, f: Forest): Doc {
    if f.Nil? then End
    else
      Element(NameOf(f.elt), if f.elt in v then v[f.elt].data else None,
              Read(v, f.kids), Read(v, f.rest))
  }

  ghost predicate SameData(v: View, u: View, f: Forest) {
    forall e :: e in Preorder(f) ==> e in v && e in u && v[e].data == u[e].data
  }

  lemma ReadAgrees(v: View, u: View, f: Forest)
    requires SameData(v, u, f)
    ensures Read(v, f) == Read(u, f)
  {
  }

  lemma {:induction false} ReadAppend(v: View, f: Forest, c: Elt, kids: Forest)
    ensures Read(v, Append(f, c, kids)) == Chain(Read(v, f), Read(v, Cons(c, kids, Nil)))
  {
    if f.Cons? {
      ReadAppend(v, f.rest, c, kids);
    }
  }

  lemma {:induction false} LastOfAppend(f: Forest, c: Elt, kids: Forest)
    ensures Last(Append(f, c, kids)) == c && First(Append(f, c, kids)) == if f.Nil? then c else First(f)
    ensures forall e :: e in Preorder(Append(f, c, kids)) ==> e in Preorder(f) || e == c || e in Preorder(kids)
  {
    if f.Cons? {
      LastOfAppend(f.rest, c, kids);
    }
  }

  /** The views of a node with the children read so far, and of one more child. */
  ghost predicate Growing(v: View, node: Elt, done: Forest, last: Elt?) {
    && node in v && v[node] == Link(First(done), null, null, None) && last == Last(done)
    && Consistent(v, done, node) && node !in Preorder(done)
  }

  ghost predicate Child(w: View, c: Elt, kids: Forest) {
    Consistent(w, Cons(c, kids, Nil), null)
  }

  lemma ChildIsLoose(v: View, node: Elt, done: Forest, last: Elt?, w: View, c: Elt, kids: Forest)
    requires Growing(v, node, done, last) && Child(w, c, kids) && v.Keys !! w.Keys
    ensures NoRepeat(Preorder(done)) && Consistent(v + w, done, node) && Loose(v + w, c, kids, node, done)
    ensures done.Cons? ==> last != null && last in v
  {
    InView(v, done, node);
    EachOnce(v, done, node);
    Agree(v, v + w, done, node);
    InView(w, kids, c);
    Agree(w, v + w, kids, c);
    NotBelowItself(w, Cons(c, kids, Nil), null);
    if done.Cons? {
      LastInside(done);
    }
  }

  lemma StillGrowing(v: View, node: Elt, done: Forest, last: Elt?, w: View, c: Elt, kids: Forest)
    requires Growing(v, node, done, last) && Child(w, c, kids) && v.Keys !! w.Keys
    ensures c in w && (done.Cons? ==> last != null && last in v)
    ensures Growing(Added(v + w, node, done, c), node, Append(done, c, kids), c)
  {
    ChildIsLoose(v, node, done, last, w, c, kids);
    AddedIsConsistent(v + w, node, done, c, kids);
    LastOfAppend(done, c, kids);
    InView(w, kids, c);
    if done.Cons? {
      LastInside(done);
    }
  }

  lemma StillReads(v: View, node: Elt, done: Forest, last: Elt?, w: View, c: Elt, kids: Forest)
    requires Growing(v, node, done, last) && Child(w, c, kids) && v.Keys !! w.Keys
    requires c in w && (done.Cons? ==> last != null && last in v)
    ensures Read(Added(v + w, node, done, c), Append(done, c, kids)) == Chain(Read(v, done), Read(w, Cons(c, kids, Nil)))
  {
    InView(v, done, node);
    InView(w, kids, c);
    var u := Added(v + w, node, done, c);
    ReadAgrees(v, u, done);
    ReadAgrees(w, u, Cons(c, kids, Nil));
    ReadAppend(u, done, c, kids);
  }

  lemma AloneIsConsistent(v: View, node: Elt, data: Option<string>)
    requires v == map[node := Link(null, null, null, data)]
    ensures Consistent(v, Cons(node, Nil, Nil), null)
  {
    assert Consistent(v, Nil, node) && Consistent(v, Nil, null);
  }

  /** The last two lines of the loop over the children: elt points to where the next child goes. */
  method LinkChild(node: Elt, c: Elt, last: Elt?, ghost v: View, ghost done: Forest, ghost w: View, ghost kids: Forest)
    requires Stands(v) && Stands(w) && v.Keys !! w.Keys && Growing(v, node, done, last) && Child(w, c, kids)
    modifies c`prnt, node`elts, v.Keys`next
    ensures done.Cons? ==> last != null && last in v
    ensures Stands(Added(v + w, node, done, c))
  {
    StillGrowing(v, node, done, last, w, c, kids);
    if last == null {
      node.elts := c;
    } else {
      last.next := c;
    }
    c.prnt := node;
  }

  /** soap_in_xsd__anyType: the tree of the next element, or null with or without SOAP_NO_TAG. */
  method In(ts: seq<Token>) returns (node: Elt?, noTag: bool, left: seq<Token>, ghost v: View, ghost f: Forest)
    ensures fresh(v.Keys) && Stands(v)
    ensures noTag <==> ParseElement(ts).NoTag?
    ensures node != null <==> ParseElement(ts).Got?
    ensures node != null ==> f.Cons? && node == f.elt && f.rest.Nil? && Consistent(v, f, null)
    ensures node != null ==> ParseElement(ts) == Got(Read(v, f), left)
    decreases |ts|, 0
  {
    node, noTag, left, v, f := null, false, ts, map[], Nil;
    if ts == [] {
      return;
    }
    if !ts[0].Open? {
      noTag := true;
      return;
    }
    var name := ts[0].name;
    node := new Elt(Some(name), None, 0);
    left := ts[1..];
    v := map[node := Link(null, null, null, None)];
    f := Cons(node, Nil, Nil);
    AloneIsConsistent(v, node, None);
    if ts[0].body {
      var ok: bool;
      ok, left, v, f := InBody(node, left);
      if !ok || left == [] || left[0] != Close(name) {
        node := null;
        return;
      }
      left := left[1..];
    }
  }

  /** What a start tag's element holds: children, or text. */
  ghost predicate HasBody(ts: seq<Token>, v: View, f: Forest, left: seq<Token>)
    requires ts != [] && f.Cons?
  {
    if ts[0].Open? then ParseChildren(ts) == Got(Read(v, f.kids), left) && f.elt in v && v[f.elt].data == None
    else f.kids.Nil? && f.elt in v && v[f.elt].data == Some(if ts[0].Text? then ts[0].text else "")
         && left == if ts[0].Text? then ts[1..] else ts
  }

  method InBody(node: Elt, ts: seq<Token>) returns (ok: bool, left: seq<Token>, ghost v: View, ghost f: Forest)
    requires Stands(map[node := Link(null, null, null, None)])
    modifies node
    ensures fresh(v.Keys - {node}) && Stands(v)
    ensures ok ==> f.Cons? && f.elt == node && f.rest.Nil? && Consistent(v, f, null) && ts != [] && HasBody(ts, v, f, left)
    ensures !ok ==> ts == [] || (ts[0].Open? && !ParseChildren(ts).Got?)
    decreases |ts|, 1
  {
    ok, left, v, f := false, ts, map[node := Link(null, null, null, None)], Cons(node, Nil, Nil);
    if ts == [] {
      return;
    }
    if !ts[0].Open? {
      var text := "";
      if ts[0].Text? {
        text, left := ts[0].text, ts[1..];
      }
      node.data := Some(text);
      v := map[node := Link(null, null, null, Some(text))];
      AloneIsConsistent(v, node, Some(text));
      ok := true;
      return;
    }
    var last: Elt? := null;
    ghost var done := Nil;
    while true
      invariant node in v && fresh(v.Keys - {node}) && Stands(v) && Growing(v, node, done, last)
      invariant |left| <= |ts|
      invariant ParseChildren(ts) == Prepended(Read(v, done), ParseChildren(left))
      decreases |left|
    {
      ghost var kids, w;
      var c, noTag, after;
      c, noTag, after, w, kids := In(left);
      if c == null {
        ok := noTag;
        NoMoreChild(Read(v, done), left);
        f := Cons(node, done, Nil);
        return;
      }
      StillGrowing(v, node, done, last, w, c, kids.kids);
      StillReads(v, node, done, last, w, c, kids.kids);
      LinkChild(node, c, last, v, done, w, kids.kids);
      OneMoreChild(Read(v, done), left);
      v := Added(v + w, node, done, c);
      done := Append(done, c, kids.kids);
      last := c;
      left := after;
    }
  }

  lemma {:induction false} PreorderNames(v: View, f: Forest)
    ensures NamesOf(Preorder(f)) == Names(Read(v, f))
  {
    if f.Cons? {
      PreorderNames(v, f.kids);
      PreorderNames(v, f.rest);
    }
  }

  /** Parsed and then traversed, an element lists its names in the order of the start tags it was read from. */
  method ListNames(ts: seq<Token>) returns (names: Option<seq<string>>, left: seq<Token>)
    requires NoEmptyText(ts)
    ensures names.Some? <==> ParseElement(ts).Got?
    ensures names.Some? ==> OpenNames(ts) == names.value + OpenNames(left) && left == ParseElement(ts).rest
  {
    var node, noTag;
    ghost var v, f;
    node, noTag, left, v, f := In(ts);
    if node == null {
      return None, left;
    }
    var visited := Traverse(node, v, f);
    names := Some(NamesOf(visited));
    PreorderNames(v, f);
    PrintOfElement(ts);
    PrintedNames(Read(v, f));
    NamesOfConcat(Print(Read(v, f)), left);
  }
}
