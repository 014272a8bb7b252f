/** Element trees linked by first child, next sibling and parent, and their traversal in document order. */
module DomTree {
  import opened Options
  import opened Sequences

  /** struct soap_dom_element */
  class Elt {
    const name: Option<string>
    const nstr: Option<string>
    const typ: int
    var data: Option<string>
    var elts: Elt?
    var next: Elt?
    var prnt: Elt?

    constructor (name: Option<string>, nstr: Option<string>, typ: int)
      ensures this.name == name && this.nstr == nstr && this.typ == typ
      ensures data == None && elts == null && next == null && prnt == null
    {
      this.name, this.nstr, this.typ := name, nstr, typ;
      data, elts, next, prnt := None, null, null, null;
    }
  }

  /** What an element's pointers and text are; a view holds them for some elements. */
  datatype Link = Link(elts: Elt?, next: Elt?, prnt: Elt?, data: Option<string>)

  type View = map<Elt, Link>

  ghost predicate Stands(v: View)
    reads v.Keys
  {
    forall e :: e in v ==> v[e] == Link(e.elts, e.next, e.prnt, e.data)
  }

  /** A list of siblings: the first one, the list of its children, and the siblings after it. */
  datatype Forest = Nil | Cons(elt: Elt, kids: Forest, rest: Forest)

  ghost function First(f: Forest): Elt? {
    if f.Nil? then null else f.elt
  }

  /** Document order. */
  ghost function Preorder(f: Forest): seq<Elt> {
    if f.Nil? then [] else [f.elt] + Preorder(f.kids) + Preorder(f.rest)
  }

  /** The links of the elements are those of this forest below this parent. */
  ghost predicate Consistent(v: View, f: Forest, parent: Elt?) {
    f.Nil? || (
      && f.elt in v
      && v[f.elt].elts == First(f.kids) && v[f.elt].next == First(f.rest) && v[f.elt].prnt == parent
      && Consistent(v, f.kids, f.elt) && Consistent(v, f.rest, parent))
  }

  lemma InView(v: View, f: Forest, parent: Elt?)
    requires Consistent(v, f, parent)
    ensures forall e :: e in Preorder(f) ==> e in v
  {
  }

  // ---------------------------------------------------------------- each element once

  /** The links determine the forest. */
  lemma {:induction false} LinksDetermine(v: View, f: Forest, g: Forest, p: Elt?, q: Elt?)
    requires Consistent(v, f, p) && Consistent(v, g, q) && First(f) == First(g)
    ensures f == g
  {
    if f.Cons? {
      LinksDetermine(v, f.kids, g.kids, f.elt, f.elt);
      LinksDetermine(v, f.rest, g.rest, p, q);
    }
  }

  ghost function Size(f: Forest): nat {
    if f.Nil? then 0 else 1 + Size(f.kids) + Size(f.rest)
  }

  /** Below every element of a forest hangs a forest that is no larger. */
  lemma {:induction false} Below(v: View, f: Forest, p: Elt?, e: Elt) returns (g: Forest, q: Elt?)
    requires Consistent(v, f, p) && e in Preorder(f)
    ensures First(g) == e && Consistent(v, g, q) && Size(g) <= Size(f)
  {
    if f.elt == e {
      g, q := f, p;
    } else if e in Preorder(f.kids) {
      g, q := Below(v, f.kids, f.elt, e);
    } else {
      g, q := Below(v, f.rest, p, e);
    }
  }

  /** The parent of an element that is not at the top comes before it. */
  lemma {:induction false} ParentBefore(v: View, f: Forest, p: Elt?, i: nat)
    requires Consistent(v, f, p) && i < |Preorder(f)|
    ensures Preorder(f)[i] in v
    ensures v[Preorder(f)[i]].prnt == p || exists j: nat :: j < i && Preorder(f)[j] == v[Preorder(f)[i]].prnt
  {
    var k := |Preorder(f.kids)|;
    if 0 < i <= k {
      ParentBefore(v, f.kids, f.elt, i - 1);
      assert Preorder(f)[i] == Preorder(f.kids)[i - 1];
      if v[Preorder(f)[i]].prnt == f.elt {
        assert Preorder(f)[0] == f.elt;
      } else {
        var j: nat :| j < i - 1 && Preorder(f.kids)[j] == v[Preorder(f)[i]].prnt;
        assert Preorder(f)[j + 1] == Preorder(f.kids)[j];
      }
    } else if i > k {
      ParentBefore(v, f.rest, p, i - 1 - k);
      assert Preorder(f)[i] == Preorder(f.rest)[i - 1 - k];
      if v[Preorder(f)[i]].prnt != p {
        var j: nat :| j < i - 1 - k && Preorder(f.rest)[j] == v[Preorder(f)[i]].prnt;
        assert Preorder(f)[j + 1 + k] == Preorder(f.rest)[j];
      }
    }
  }

  /** No element of the children is among the siblings after them. */
  lemma {:induction false} KidsApart(v: View, f: Forest, p: Elt?, i: nat)
    requires f.Cons? && Consistent(v, f, p) && p !in Preorder(f)
    requires f.elt !in Preorder(f.rest) && i < |Preorder(f.kids)|
    ensures Preorder(f.kids)[i] !in Preorder(f.rest)
  {
    var x := Preorder(f.kids)[i];
    ParentBefore(v, f.kids, f.elt, i);
    if x in Preorder(f.rest) {
      var j: nat :| j < |Preorder(f.rest)| && Preorder(f.rest)[j] == x;
      ParentBefore(v, f.rest, p, j);
      var up := v[x].prnt;
      assert up == p || up in Preorder(f.rest);
      if up != f.elt {
        var m: nat :| m < i && Preorder(f.kids)[m] == up;
        assert up in Preorder(f);
        KidsApart(v, f, p, m);
        assert false;
      } else {
        assert false;
      }
    }
  }

  ghost predicate NoRepeat(s: seq<Elt>) {
    forall i, j :: 0 <= i < j < |s| ==> s[i] != s[j]
  }

  /** A forest with consistent links holds no element twice: it is not assumed, it follows. */
  lemma {:induction false} EachOnce(v: View, f: Forest, p: Elt?)
    requires Consistent(v, f, p) && p !in Preorder(f)
    ensures NoRepeat(Preorder(f))
  {
    if f.Cons? {
      NotBelowItself(v, f, p);
      EachOnce(v, f.kids, f.elt);
      EachOnce(v, f.rest, p);
      forall i | 0 <= i < |Preorder(f.kids)|
        ensures Preorder(f.kids)[i] !in Preorder(f.rest)
      {
        KidsApart(v, f, p, i);
      }
      Joined([f.elt], Preorder(f.kids), Preorder(f.rest));
    }
  }

  lemma NotBelowItself(v: View, f: Forest, p: Elt?)
    requires f.Cons? && Consistent(v, f, p)
    ensures f.elt !in Preorder(f.kids) && f.elt !in Preorder(f.rest)
  {
    if f.elt in Preorder(f.kids) {
      var g, q := Below(v, f.kids, f.elt, f.elt);
      LinksDetermine(v, f, g, p, q);
      assert false;
    }
    if f.elt in Preorder(f.rest) {
      var g, q := Below(v, f.rest, p, f.elt);
      LinksDetermine(v, f, g, p, q);
      assert false;
    }
  }

  lemma Joined(a: seq<Elt>, b: seq<Elt>, c: seq<Elt>)
    requires |a| == 1 && NoRepeat(b) && NoRepeat(c) && a[0] !in b && a[0] !in c
    requires forall i :: 0 <= i < |b| ==> b[i] !in c
    ensures NoRepeat(a + b + c)
  {
  }

  // ---------------------------------------------------------------- traversal

  /** What surrounds an element above: its parent, the parent's later siblings, and so on up to the top. */
  datatype Above = Top | Up(parent: Elt, rest: Forest, above: Above)

  datatype Place = Place(elt: Elt, kids: Forest, rest: Forest, above: Above)

  ghost function Parent(a: Above): Elt? {
    if a.Top? then null else a.parent
  }

  ghost predicate Around(v: View, a: Above) {
    a.Top? || (
      && a.parent in v && v[a.parent].next == First(a.rest) && v[a.parent].prnt == Parent(a.above)
      && Consistent(v, a.rest, Parent(a.above)) && Around(v, a.above))
  }

  ghost predicate Stays(v: View, p: Place) {
    Consistent(v, Cons(p.elt, p.kids, p.rest), Parent(p.above)) && Around(v, p.above)
  }

  ghost function Rest(a: Above): seq<Elt> {
    if a.Top? then [] else Preorder(a.rest) + Rest(a.above)
  }

  /** The elements after this one, in document order. */
  ghost function Later(p: Place): seq<Elt> {
    Preorder(p.kids) + Preorder(p.rest) + Rest(p.above)
  }

  ghost function Enter(f: Forest, a: Above): (p: Place)
    requires f.Cons?
    ensures [p.elt] + Later(p) == Preorder(f) + Rest(a)
  {
    Place(f.elt, f.kids, f.rest, a)
  }

  lemma DownIsLater(p: Place)
    requires p.kids.Cons?
    ensures var q := Enter(p.kids, Up(p.elt, p.rest, p.above)); Later(p) == [q.elt] + Later(q)
  {
    Assoc(Preorder(p.kids), Preorder(p.rest), Rest(p.above));
  }

  lemma AcrossIsLater(p: Place)
    requires p.kids.Nil? && p.rest.Cons?
    ensures var q := Enter(p.rest, p.above); Later(p) == [q.elt] + Later(q)
  {
    assert [] + Preorder(p.rest) == Preorder(p.rest);
  }

  lemma NothingBelow(p: Place)
    requires p.kids.Nil? && p.rest.Nil?
    ensures Later(p) == Rest(p.above)
  {
    assert [] + [] + Rest(p.above) == Rest(p.above);
  }

  /** soap_dom_next_element: the next element in document order, null after the last. */
  method NextElement(elt: Elt, ghost v: View, ghost p: Place) returns (n: Elt?, ghost q: Place)
    requires Stands(v) && Stays(v, p) && p.elt == elt
    ensures n == if Later(p) == [] then null else Later(p)[0]
    ensures n != null ==> Stays(v, q) && q.elt == n && Later(p) == [n] + Later(q)
  {
    q := p;
    if elt.elts != null {
      DownIsLater(p);
      q := Enter(p.kids, Up(elt, p.rest, p.above));
      return elt.elts, q;
    }
    if elt.next != null {
      AcrossIsLater(p);
      q := Enter(p.rest, p.above);
      return elt.next, q;
    }
    NothingBelow(p);
    ghost var a := p.above;
    n := elt.prnt;
    while n != null && n.next == null
      invariant n == Parent(a) && Around(v, a) && Later(p) == Rest(a)
      decreases a
    {
      assert [] + Rest(a.above) == Rest(a.above);
      n := n.prnt;
      a := a.above;
    }
    if n != null {
      n := n.next;
      q := Enter(a.rest, a.above);
    }
  }

  /** From the first root on, every element of the forest is met once, in document order, and then null. */
  method Traverse(root: Elt, ghost v: View, ghost f: Forest) returns (visited: seq<Elt>)
    requires Stands(v) && Consistent(v, f, null) && root == First(f)
    ensures visited == Preorder(f) && NoRepeat(visited)
  {
    visited := [];
    var elt: Elt? := root;
    ghost var p := Enter(f, Top);
    while elt != null
      invariant elt == null ==> visited == Preorder(f)
      invariant elt != null ==> Stays(v, p) && p.elt == elt && visited + [elt] + Later(p) == Preorder(f)
      decreases |Preorder(f)| - |visited|
    {
      visited := visited + [elt];
      elt, p := NextElement(elt, v, p);
    }
    EachOnce(v, f, null);
  }

  // ---------------------------------------------------------------- searching

  /** What an iterator looks for: soap_dom_element::find has one form for each. */
  datatype Query = ByName(nstr: Option<string>, name: Option<string>) | ByType(typ: int)

  /** soap_tag_cmp finds no difference; it is a parameter of everything that follows. */
  type Same = (string, string) -> bool

  /** Where operator++ stops. */
  predicate Stops(same: Same, q: Query, e: Elt) {
    match q
    case ByName(nstr, name) =>
      name.Some? && e.name.Some? ==>
        same(e.name.value, name.value) && (nstr.Some? && e.nstr.Some? ==> same(e.nstr.value, nstr.value))
    case ByType(typ) => typ != 0 ==> e.typ == typ
  }

  /** Where find itself stops at once. */
  predicate StopsFirst(same: Same, q: Query, e: Elt)
    requires q.ByName? && q.name.Some? ==> e.name.Some?
  {
    match q
    case ByName(nstr, name) =>
      (name.Some? ==> same(e.name.value, name.value)) && (nstr.Some? && e.nstr.Some? ==> same(e.nstr.value, nstr.value))
    case ByType(typ) => e.typ == typ
  }

  ghost function Matching(same: Same, q: Query, s: seq<Elt>): seq<Elt> {
    if s == [] then [] else (if Stops(same, q, s[0]) then [s[0]] else []) + Matching(same, q, s[1..])
  }

  /** What an iterator that has reached n has yet to yield. */
  ghost function Yields(same: Same, query: Query, n: Elt?, q: Place): seq<Elt> {
    if n == null then [] else [n] + Matching(same, query, Later(q))
  }

  /** soap_dom_element_iterator::operator++ on an iterator that is not at the end. */
  method Increment(same: Same, query: Query, elt: Elt, ghost v: View, ghost p: Place) returns (n: Elt?, ghost q: Place)
    requires Stands(v) && Stays(v, p) && p.elt == elt
    ensures n == if Matching(same, query, Later(p)) == [] then null else Matching(same, query, Later(p))[0]
    ensures Matching(same, query, Later(p)) == Yields(same, query, n, q)
    ensures n != null ==> Stays(v, q) && q.elt == n && |Later(q)| < |Later(p)|
  {
    n, q := NextElement(elt, v, p);
    while n != null
      invariant n == null ==> Matching(same, query, Later(p)) == []
      invariant n != null ==> Stays(v, q) && q.elt == n && |Later(q)| < |Later(p)|
      invariant n != null ==> Matching(same, query, Later(p)) == Matching(same, query, [n] + Later(q))
      decreases if n == null then 0 else 1 + |Later(q)|
    {
      assert ([n] + Later(q))[1..] == Later(q);
      if Stops(same, query, n) {
        break;
      }
      n, q := NextElement(n, v, q);
    }
  }

  /** What a loop over find yields from an element on: the element by find's own test, the later ones of the
      document by operator++. */
  ghost function Found(same: Same, query: Query, p: Place): seq<Elt>
    requires query.ByName? && query.name.Some? ==> p.elt.name.Some?
  {
    (if StopsFirst(same, query, p.elt) then [p.elt] else []) + Matching(same, query, Later(p))
  }

  /** soap_dom_element::find, of any element. */
  method Find(same: Same, query: Query, elt: Elt, ghost v: View, ghost p: Place) returns (iter: Elt?, ghost q: Place)
    requires Stands(v) && Stays(v, p) && p.elt == elt
    requires query.ByName? && query.name.Some? ==> elt.name.Some?
    ensures iter == if Found(same, query, p) == [] then null else Found(same, query, p)[0]
    ensures Found(same, query, p) == Yields(same, query, iter, q)
    ensures iter != null ==> Stays(v, q) && q.elt == iter
  {
    q := p;
    iter := elt;
    if !StopsFirst(same, query, elt) {
      iter, q := Increment(same, query, elt, v, p);
    }
  }

  method FindAll(same: Same, query: Query, elt: Elt, ghost v: View, ghost p: Place) returns (found: seq<Elt>)
    requires Stands(v) && Stays(v, p) && p.elt == elt
    requires query.ByName? && query.name.Some? ==> elt.name.Some?
    ensures found == Found(same, query, p)
  {
    found := [];
    var iter;
    ghost var q;
    iter, q := Find(same, query, elt, v, p);
    ghost var yet := Yields(same, query, iter, q);
    while iter != null
      invariant iter != null ==> Stays(v, q) && q.elt == iter
      invariant yet == Yields(same, query, iter, q) && found + yet == Found(same, query, p)
      decreases |yet|
    {
      OneMore(found, yet);
      found := found + [iter];
      iter, q := Increment(same, query, iter, v, q);
      yet := yet[1..];
    }
  }

  lemma OneMore<T>(a: seq<T>, b: seq<T>)
    requires b != []
    ensures a + b == a + [b[0]] + b[1..]
  {
  }

  // ---------------------------------------------------------------- when a search finds what is asked for

  /** What a search asks for, whatever the code does: an element of that name that is not of another namespace,
      or an element of that type. */
  predicate Wanted(same: Same, q: Query, e: Elt) {
    match q
    case ByName(nstr, name) =>
      && (name.Some? ==> e.name.Some? && same(e.name.value, name.value))
      && (nstr.Some? && e.nstr.Some? ==> same(e.nstr.value, nstr.value))
    case ByType(typ) => e.typ == typ
  }

  ghost function AllWanted(same: Same, q: Query, s: seq<Elt>): seq<Elt> {
    if s == [] then [] else (if Wanted(same, q, s[0]) then [s[0]] else []) + AllWanted(same, q, s[1..])
  }

  /** operator++ skips no wanted element, and stops at wanted ones only, exactly if it finds the wanted ones. */
  lemma {:induction false} MatchingIsWanted(same: Same, q: Query, s: seq<Elt>)
    ensures |AllWanted(same, q, s)| <= |Matching(same, q, s)|
    ensures Matching(same, q, s) == AllWanted(same, q, s) <==> forall e :: e in s && Stops(same, q, e) ==> Wanted(same, q, e)
    ensures Matching(same, q, s) == AllWanted(same, q, s) <==> |Matching(same, q, s)| == |AllWanted(same, q, s)|
  {
    if s != [] {
      MatchingIsWanted(same, q, s[1..]);
      assert s == [s[0]] + s[1..];
    }
  }

  /** From an element on, find yields exactly the wanted elements of the document, in order, if and only if every
      later element at which operator++ stops is wanted. From the first root on that is the whole document. */
  lemma FindsExactly(same: Same, query: Query, p: Place)
    requires query.ByName? && query.name.Some? ==> p.elt.name.Some?
    ensures Found(same, query, p) == AllWanted(same, query, [p.elt] + Later(p)) <==>
            forall e :: e in Later(p) && Stops(same, query, e) ==> Wanted(same, query, e)
  {
    var first := if Wanted(same, query, p.elt) then [p.elt] else [];
    assert ([p.elt] + Later(p))[1..] == Later(p);
    MatchingIsWanted(same, query, Later(p));
    Cancel(first, Matching(same, query, Later(p)), AllWanted(same, query, Later(p)));
  }

  lemma Cancel<T>(a: seq<T>, b: seq<T>, c: seq<T>)
    ensures a + b == a + c <==> b == c
  {
    if a + b == a + c {
      assert (a + b)[|a|..] == b && (a + c)[|a|..] == c;
    }
  }

  lemma {:induction false} MatchingOfConcat(same: Same, q: Query, a: seq<Elt>, b: seq<Elt>)
    ensures Matching(same, q, a + b) == Matching(same, q, a) + Matching(same, q, b)
  {
    if a == [] {
      assert a + b == b;
    } else {
      assert (a + b)[0] == a[0] && (a + b)[1..] == a[1..] + b;
      MatchingOfConcat(same, q, a[1..], b);
    }
  }

  lemma {:induction false} NoMatch(same: Same, q: Query, s: seq<Elt>)
    ensures Matching(same, q, s) == [] <==> forall e :: e in s ==> !Stops(same, q, e)
  {
    if s != [] {
      NoMatch(same, q, s[1..]);
      assert s == [s[0]] + s[1..];
    }
  }

  /** What comes after the element and all below it. */
  ghost function Outside(p: Place): seq<Elt> {
    Preorder(p.rest) + Rest(p.above)
  }

  /** find is asked of an element, but does not stay below it: it does if and only if operator++ stops nowhere
      after it. */
  lemma StaysInside(same: Same, query: Query, p: Place)
    requires query.ByName? && query.name.Some? ==> p.elt.name.Some?
    ensures var inside := (if StopsFirst(same, query, p.elt) then [p.elt] else []) + Matching(same, query, Preorder(p.kids));
            && Found(same, query, p) == inside + Matching(same, query, Outside(p))
            && (Found(same, query, p) == inside <==> forall e :: e in Outside(p) ==> !Stops(same, query, e))
  {
    var first := if StopsFirst(same, query, p.elt) then [p.elt] else [];
    Assoc(Preorder(p.kids), Preorder(p.rest), Rest(p.above));
    MatchingOfConcat(same, query, Preorder(p.kids), Outside(p));
    Assoc(first, Matching(same, query, Preorder(p.kids)), Matching(same, query, Outside(p)));
    NoMatch(same, query, Outside(p));
  }

  /** The wanted elements of what hangs below an element, itself included, are found exactly if operator++ stops
      at wanted ones only below it and nowhere after it. */
  lemma FindsBelowExactly(same: Same, query: Query, p: Place)
    requires query.ByName? && query.name.Some? ==> p.elt.name.Some?
    ensures Found(same, query, p) == AllWanted(same, query, [p.elt] + Preorder(p.kids)) <==>
            (forall e :: e in Preorder(p.kids) && Stops(same, query, e) ==> Wanted(same, query, e))
            && (forall e :: e in Outside(p) ==> !Stops(same, query, e))
  {
    var first := if Wanted(same, query, p.elt) then [p.elt] else [];
    var kids := Preorder(p.kids);
    StaysInside(same, query, p);
    MatchingIsWanted(same, query, kids);
    NoMatch(same, query, Outside(p));
    assert ([p.elt] + kids)[1..] == kids;
    Cancel(first, Matching(same, query, kids), AllWanted(same, query, kids));
  }

  /** A search by name: exactly if all later elements have names. */
  lemma NamedSearchFinds(same: Same, nstr: Option<string>, name: string, p: Place)
    requires p.elt.name.Some?
    ensures Found(same, ByName(nstr, Some(name)), p) == AllWanted(same, ByName(nstr, Some(name)), [p.elt] + Later(p)) <==>
            forall e :: e in Later(p) ==> e.name.Some?
  {
    FindsExactly(same, ByName(nstr, Some(name)), p);
  }

  /** A search by namespace alone: exactly if no later element is of another namespace. operator++ looks at the
      namespace only of elements whose name it compares. */
  lemma NamespaceSearchFinds(same: Same, nstr: string, p: Place)
    ensures Found(same, ByName(Some(nstr), None), p) == AllWanted(same, ByName(Some(nstr), None), [p.elt] + Later(p)) <==>
            forall e :: e in Later(p) && e.nstr.Some? ==> same(e.nstr.value, nstr)
  {
    FindsExactly(same, ByName(Some(nstr), None), p);
  }

  /** A search by type: always if the type is not 0, otherwise exactly if all later elements are of type 0. */
  lemma TypeSearchFinds(same: Same, typ: int, p: Place)
    ensures Found(same, ByType(typ), p) == AllWanted(same, ByType(typ), [p.elt] + Later(p)) <==>
            typ != 0 || forall e :: e in Later(p) ==> e.typ == 0
  {
    FindsExactly(same, ByType(typ), p);
  }

  /** A search by namespace alone filters only the root. */
  lemma {:induction false} NamespaceAloneFiltersNothing(same: Same, nstr: Option<string>, s: seq<Elt>)
    ensures Matching(same, ByName(nstr, None), s) == s
  {
    if s != [] {
      NamespaceAloneFiltersNothing(same, nstr, s[1..]);
    }
  }

  const EQUAL: Same := (x, y) => x == y

  /** A root without a type, in the namespace n, and below it one element of another namespace that has a type
      but no name. */
  ghost predicate Failing(f: Forest, root: Elt, child: Elt, tag: string, n: string) {
    && f == Cons(root, Cons(child, Nil, Nil), Nil)
    && root.name == Some(tag) && root.nstr == Some(n) && root.typ == 0
    && child.name == None && child.nstr.Some? && child.nstr.value != n && child.typ != 0
  }

  /** There all three searches from the root yield the child too, which none of them asks for. */
  lemma FailingSearches(f: Forest, root: Elt, child: Elt, tag: string, n: string, q: Query)
    requires Failing(f, root, child, tag, n)
    requires q == ByName(None, Some(tag)) || q == ByName(Some(n), None) || q == ByType(0)
    ensures var p := Enter(f, Top);
            Found(EQUAL, q, p) == [root, child] && [p.elt] + Later(p) == Preorder(f) && AllWanted(EQUAL, q, Preorder(f)) == [root]
  {
    var p := Enter(f, Top);
    assert Preorder(f) == [root, child] && Later(p) == [child];
    assert [root, child][1..] == [child] && [child][1..] == [];
    assert Matching(EQUAL, q, [child]) == [child] + Matching(EQUAL, q, []) == [child];
    assert AllWanted(EQUAL, q, [child]) == AllWanted(EQUAL, q, []) == [];
  }

  /** A search by type asked of an element with nothing below it yields its sibling of that type. */
  lemma SearchLeaves(elt: Elt, sibling: Elt, typ: int)
    requires elt.typ != typ && sibling.typ == typ != 0
    ensures Found(EQUAL, ByType(typ), Place(elt, Nil, Cons(sibling, Nil, Nil), Top)) == [sibling]
  {
    var later := Later(Place(elt, Nil, Cons(sibling, Nil, Nil), Top));
    assert later == [sibling] && [sibling][1..] == [];
    assert Matching(EQUAL, ByType(typ), [sibling]) == [sibling] + Matching(EQUAL, ByType(typ), []);
  }

  /** Such a document can be built. */
  method FailingDocument(tag: string, n: string, other: string) returns (root: Elt, ghost v: View, ghost f: Forest, ghost child: Elt)
    requires n != other
    ensures fresh(v.Keys) && Stands(v) && Consistent(v, f, null) && Failing(f, root, child, tag, n)
  {
    root := new Elt(Some(tag), Some(n), 0);
    var below := new Elt(None, Some(other), 1);
    child := below;
    v := map[root := Link(null, null, null, None), child := Link(null, null, null, None)];
    f := Cons(root, Append(Nil, child, Nil), Nil);
    Add(root, below, v, Nil, Nil);
    v := Added(v, root, Nil, child);
    assert Consistent(v, Nil, root) && Consistent(v, Nil, child) && Consistent(v, Nil, null);
  }

  // ---------------------------------------------------------------- adding a child

  ghost function Append(f: Forest, c: Elt, kids: Forest): Forest {
    if f.Nil? then Cons(c, kids, Nil) else Cons(f.elt, f.kids, Append(f.rest, c, kids))
  }

  ghost function Last(f: Forest): Elt? {
    if f.Nil? then null else if f.rest.Nil? then f.elt else Last(f.rest)
  }

  lemma Agree(v: View, u: View, f: Forest, p: Elt?)
    requires Consistent(v, f, p) && forall e :: e in Preorder(f) ==> e in u && e in v && u[e] == v[e]
    ensures Consistent(u, f, p)
  {
  }

  lemma NoRepeatParts(a: seq<Elt>, b: seq<Elt>)
    requires NoRepeat(a + b)
    ensures NoRepeat(a) && NoRepeat(b) && forall e :: e in a ==> e !in b
  {
    var s := a + b;
    forall i, j | 0 <= i < j < |a|
      ensures a[i] != a[j]
    {
      assert s[i] == a[i] && s[j] == a[j];
    }
    forall i, j | 0 <= i < j < |b|
      ensures b[i] != b[j]
    {
      assert s[|a| + i] == b[i] && s[|a| + j] == b[j];
    }
    forall i, j | 0 <= i < |a| && 0 <= j < |b|
      ensures a[i] != b[j]
    {
      assert s[i] == a[i] && s[|a| + j] == b[j];
    }
  }

  lemma Pieces(f: Forest)
    requires f.Cons? && NoRepeat(Preorder(f))
    ensures NoRepeat(Preorder(f.kids)) && NoRepeat(Preorder(f.rest))
    ensures f.elt !in Preorder(f.kids) && f.elt !in Preorder(f.rest)
    ensures forall e :: e in Preorder(f.kids) ==> e !in Preorder(f.rest)
  {
    NoRepeatParts([f.elt] + Preorder(f.kids), Preorder(f.rest));
    NoRepeatParts([f.elt], Preorder(f.kids));
    assert f.elt in [f.elt] && f.elt in [f.elt] + Preorder(f.kids);
  }

  lemma LastInside(f: Forest)
    requires f.Cons?
    ensures Last(f) != null && Last(f) in Preorder(f)
  {
  }

  /** The view after `c`, with what hangs below it, has been linked behind the last sibling. */
  ghost predicate LinkedBehind(v: View, f: Forest, p: Elt?, c: Elt, kids: Forest, u: View) {
    && (forall e :: e in Preorder(f) ==> e in v && e in u && u[e] == if e == Last(f) then v[e].(next := c) else v[e])
    && c in u && u[c].elts == First(kids) && u[c].next == null && u[c].prnt == p
    && Consistent(u, kids, c)
  }

  lemma {:induction false} AppendIsConsistent(v: View, f: Forest, p: Elt?, c: Elt, kids: Forest, u: View)
    requires Consistent(v, f, p) && NoRepeat(Preorder(f)) && LinkedBehind(v, f, p, c, kids, u)
    ensures Consistent(u, Append(f, c, kids), p)
  {
    if f.Cons? {
      Pieces(f);
      LastInside(f);
      assert forall e :: e in Preorder(f.kids) || e in Preorder(f.rest) ==> e in Preorder(f);
      if f.rest.Cons? {
        LastInside(f.rest);
      }
      Agree(v, u, f.kids, f.elt);
      AppendIsConsistent(v, f.rest, p, c, kids, u);
    }
  }

  /** The search of add for the last child: null if there is none. */
  method LastSibling(first: Elt?, ghost v: View, ghost f: Forest, ghost p: Elt?) returns (last: Elt?)
    requires Stands(v) && Consistent(v, f, p) && first == First(f)
    ensures last == Last(f)
  {
    last := first;
    ghost var g := f;
    while last != null
      invariant last == First(g) && Consistent(v, g, p) && Last(g) == Last(f) && (f.Cons? ==> g.Cons?)
      decreases g
    {
      if last.next == null {
        return;
      }
      last := last.next;
      g := g.rest;
    }
  }

  /** What add has linked. */
  ghost function Added(v: View, parent: Elt, f: Forest, elt: Elt): View
    requires parent in v && elt in v && (f.Cons? ==> Last(f) != null && Last(f) in v)
  {
    var w := v[elt := v[elt].(prnt := parent)];
    if f.Nil? then w[parent := w[parent].(elts := elt)] else w[Last(f) := w[Last(f)].(next := elt)]
  }

  /** An element with all below it, apart from a parent and its children. */
  ghost predicate Loose(v: View, elt: Elt, kids: Forest, parent: Elt, f: Forest) {
    && elt in v && v[elt].elts == First(kids) && v[elt].next == null && Consistent(v, kids, elt)
    && elt != parent && elt !in Preorder(kids) && parent !in Preorder(kids) && elt !in Preorder(f)
    && forall e :: e in Preorder(kids) ==> e !in Preorder(f)
  }

  lemma AddedIsConsistent(v: View, parent: Elt, f: Forest, elt: Elt, kids: Forest)
    requires parent in v && v[parent].elts == First(f) && Consistent(v, f, parent)
    requires NoRepeat(Preorder(f)) && parent !in Preorder(f) && Loose(v, elt, kids, parent, f)
    ensures f.Cons? ==> Last(f) != null && Last(f) in v
    ensures var u := Added(v, parent, f, elt);
            Consistent(u, Append(f, elt, kids), parent) && u[parent].elts == First(Append(f, elt, kids))
  {
    InView(v, f, parent);
    InView(v, kids, elt);
    if f.Cons? {
      LastInside(f);
    }
    var u := Added(v, parent, f, elt);
    Agree(v, u, kids, elt);
    AppendIsConsistent(v, f, parent, elt, kids, u);
  }

  /** soap_dom_element::add: an element without siblings becomes the last child. */
  method Add(parent: Elt, elt: Elt, ghost v: View, ghost f: Forest, ghost kids: Forest)
    requires Stands(v) && parent in v && v[parent].elts == First(f) && Consistent(v, f, parent)
    requires NoRepeat(Preorder(f)) && parent !in Preorder(f) && Loose(v, elt, kids, parent, f)
    modifies parent`elts, elt`prnt, v.Keys`next
    ensures f.Cons? ==> Last(f) != null && Last(f) in v
    ensures Stands(Added(v, parent, f, elt)) && Consistent(Added(v, parent, f, elt), Append(f, elt, kids), parent)
  {
    AddedIsConsistent(v, parent, f, elt, kids);
    var last := LastSibling(parent.elts, v, f, parent);
    elt.prnt := parent;
    if last != null {
      last.next := elt;
      return;
    }
    parent.elts := elt;
  }
}
