/** Pointers into one nested C structure. The structures embed their members, so an address is the
    access path from the document element: (field, occurrence) pairs. */
module Pointers {
  import opened Options
  import opened Wire

  type Ptr = seq<(nat, nat)>

  function Deref(dom: Dom, p: Ptr): Option<Dom>
    decreases |p|
  {
    if p == [] then Some(dom)
    else if dom.Struct? && p[0].0 < |dom.slots| && p[0].1 < |dom.slots[p[0].0]|
    then Deref(dom.slots[p[0].0][p[0].1], p[1..])
    else None
  }

  /** The list in field k of the structure p points to. */
  function ListAt(dom: Dom, p: Ptr, k: nat): Option<seq<Dom>> {
    match Deref(dom, p)
    case Some(Struct(slots)) => if k < |slots| then Some(slots[k]) else None
    case _ => None
  }

  /** The structure after a write through p; the other members keep their values. */
  function Store(dom: Dom, p: Ptr, v: Dom): Dom
    requires Deref(dom, p).Some?
    decreases |p|
  {
    if p == [] then v
    else
      var (k, i) := p[0];
      Struct(dom.slots[k := dom.slots[k][i := Store(dom.slots[k][i], p[1..], v)]])
  }

  function Top<T>(stack: seq<T>): T
    requires stack != []
  {
    stack[|stack| - 1]
  }

  function Pop<T>(stack: seq<T>): seq<T>
    requires stack != []
  {
    stack[..|stack| - 1]
  }

  lemma {:induction false} DerefMember(dom: Dom, p: Ptr, k: nat, i: nat)
    requires Deref(dom, p).Some? && Deref(dom, p).value.Struct?
    requires k < |Deref(dom, p).value.slots| && i < |Deref(dom, p).value.slots[k]|
    ensures Deref(dom, p + [(k, i)]) == Some(Deref(dom, p).value.slots[k][i])
    decreases |p|
  {
    var q := p + [(k, i)];
    if p == [] {
      assert q[1..] == [];
    } else {
      assert q[0] == p[0] && q[1..] == p[1..] + [(k, i)];
      DerefMember(dom.slots[p[0].0][p[0].1], p[1..], k, i);
    }
  }

  lemma {:induction false} DerefStore(dom: Dom, p: Ptr, v: Dom)
    requires Deref(dom, p).Some?
    ensures Deref(Store(dom, p, v), p) == Some(v)
    decreases |p|
  {
    if p != [] {
      DerefStore(dom.slots[p[0].0][p[0].1], p[1..], v);
    }
  }

  lemma {:induction false} StoreStore(dom: Dom, p: Ptr, v: Dom, w: Dom)
    requires Deref(dom, p).Some?
    ensures Deref(Store(dom, p, v), p).Some?
    ensures Store(Store(dom, p, v), p, w) == Store(dom, p, w)
    decreases |p|
  {
    DerefStore(dom, p, v);
    if p != [] {
      var (k, i) := p[0];
      StoreStore(dom.slots[k][i], p[1..], v, w);
      var l := dom.slots[k];
      var a, b := Store(l[i], p[1..], v), Store(l[i], p[1..], w);
      assert l[i := a][i := b] == l[i := b];
      assert dom.slots[k := l[i := a]][k := l[i := b]] == dom.slots[k := l[i := b]];
    }
  }

  /** Writing a member is writing the structure with that member changed. */
  lemma {:induction false} StoreMember(dom: Dom, p: Ptr, k: nat, i: nat, v: Dom)
    requires Deref(dom, p).Some? && Deref(dom, p).value.Struct?
    requires k < |Deref(dom, p).value.slots| && i < |Deref(dom, p).value.slots[k]|
    ensures Deref(dom, p + [(k, i)]).Some?
    ensures var slots := Deref(dom, p).value.slots;
            Store(dom, p + [(k, i)], v) == Store(dom, p, Struct(slots[k := slots[k][i := v]]))
    decreases |p|
  {
    DerefMember(dom, p, k, i);
    var q := p + [(k, i)];
    if p == [] {
      assert q[1..] == [];
    } else {
      assert q[0] == p[0] && q[1..] == p[1..] + [(k, i)];
      StoreMember(dom.slots[p[0].0][p[0].1], p[1..], k, i, v);
    }
  }

  lemma {:induction false} StoreSame(dom: Dom, p: Ptr)
    requires Deref(dom, p).Some?
    ensures Store(dom, p, Deref(dom, p).value) == dom
    decreases |p|
  {
    if p != [] {
      var (k, i) := p[0];
      StoreSame(dom.slots[k][i], p[1..]);
      assert dom.slots[k][i := dom.slots[k][i]] == dom.slots[k];
      assert dom.slots[k := dom.slots[k]] == dom.slots;
    }
  }
}
