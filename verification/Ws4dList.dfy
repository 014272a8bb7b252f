/** The intrusive circular doubly linked list. A list is a head and the entries behind it; both are nodes. */
module Ws4dList {
  import opened Options

  /** struct ws4d_list_node. `owner` is the structure the node is embedded in (none for a head), which
      ws4d_container_of computes from the node. `live` says that the memory has not been freed. */
  class Node<T> {
    var next: Node?<T>
    var prev: Node?<T>
    const owner: Option<T>
    ghost var live: bool

    constructor (owner: Option<T>)
      ensures this.owner == owner && live
      ensures next == null && prev == null
    {
      this.owner, next, prev, live := owner, null, null, true;
    }
  }

  /** Entry i of the list, or its head at both ends. */
  ghost function At<T>(head: Node<T>, s: seq<Node<T>>, i: int): Node<T> {
    if 0 <= i < |s| then s[i] else head
  }

  ghost predicate Distinct<T>(head: Node<T>, s: seq<Node<T>>) {
    head !in s && forall i, j :: 0 <= i < j < |s| ==> s[i] != s[j]
  }

  /** From entry i to entry i + 1 and back. */
  ghost predicate Linked<T>(head: Node<T>, s: seq<Node<T>>, i: int)
    reads head, s
  {
    At(head, s, i).next == At(head, s, i + 1) && At(head, s, i + 1).prev == At(head, s, i)
  }

  /** The nodes reached from `head` through next, and in reverse through prev, are `s` and then `head` again. */
  ghost predicate Ring<T>(head: Node<T>, s: seq<Node<T>>)
    reads head, s
  {
    && Distinct(head, s)
    && head.live && (forall i :: 0 <= i < |s| ==> s[i].live)
    && forall i :: -1 <= i < |s| ==> Linked(head, s, i)
  }

  function Without<T>(s: seq<T>, i: nat): seq<T>
    requires i < |s|
  {
    s[..i] + s[i + 1..]
  }

  function Inserted<T>(s: seq<T>, i: nat, x: T): seq<T>
    requires i <= |s|
  {
    s[..i] + [x] + s[i..]
  }

  lemma RingAt<T>(head: Node<T>, s: seq<Node<T>>, i: int)
    requires Ring(head, s) && -1 <= i < |s|
    ensures At(head, s, i).live && At(head, s, i).next == At(head, s, i + 1)
  {
    assert Linked(head, s, i);
  }

  /** ws4d_list_check reports nothing on a node of a list. */
  lemma RingPassesCheck<T>(head: Node<T>, s: seq<Node<T>>, n: Node<T>)
    requires Ring(head, s) && (n == head || n in s)
    ensures n.next != null && n.prev != null && n.next.prev == n && n.prev.next == n
  {
    if n == head {
      assert Linked(head, s, -1) && Linked(head, s, |s| - 1);
    } else {
      var i :| 0 <= i < |s| && s[i] == n;
      assert Linked(head, s, i) && Linked(head, s, i - 1);
    }
  }

  /** A second list: the same one, or one that shares no node. */
  ghost predicate Apart<T>(other: Node<T>, u: seq<Node<T>>, head: Node<T>, s: seq<Node<T>>)
    reads other, u
  {
    other == head || (Ring(other, u) && other !in s && head !in u && forall n :: n in u ==> n !in s)
  }

  lemma AtIsNode<T>(head: Node<T>, s: seq<Node<T>>, i: int)
    ensures At(head, s, i) == head || At(head, s, i) in s
  {
  }

  method InitList<T>(head: Node<T>)
    requires head.live
    modifies head`next, head`prev
    ensures Ring(head, [])
  {
    head.next := head;
    head.prev := head;
  }

  /** __ws4d_list_add: between two neighbours, as entry i. Other lists are left alone. */
  method AddBetween<T>(entry: Node<T>, prev: Node<T>, next: Node<T>, ghost head: Node<T>, ghost s: seq<Node<T>>, ghost i: nat,
                       ghost other: Node<T>, ghost u: seq<Node<T>>)
    requires Ring(head, s) && i <= |s| && prev == At(head, s, i - 1) && next == At(head, s, i)
    requires entry.live && entry != head && entry !in s
    requires Apart(other, u, head, s) && (other != head ==> entry != other && entry !in u)
    modifies prev`next, next`prev, entry`next, entry`prev
    ensures Ring(head, Inserted(s, i, entry))
    ensures other != head ==> Ring(other, u)
  {
    AtIsNode(head, s, i - 1);
    AtIsNode(head, s, i);
    next.prev := entry;
    entry.next := next;
    entry.prev := prev;
    prev.next := entry;
    ghost var t := Inserted(s, i, entry);
    forall j | -1 <= j < |t|
      ensures Linked(head, t, j)
    {
      if j < i - 1 {
        assert old(Linked(head, s, j));
      } else if j > i {
        assert old(Linked(head, s, j - 1));
      }
    }
    if other != head {
      forall j | -1 <= j < |u|
        ensures Linked(other, u, j)
      {
        assert old(Linked(other, u, j));
        AtIsNode(other, u, j);
        AtIsNode(other, u, j + 1);
      }
    }
  }

  method Add<T>(entry: Node<T>, head: Node<T>, ghost s: seq<Node<T>>, ghost other: Node<T>, ghost u: seq<Node<T>>)
    requires Ring(head, s) && entry.live && entry != head && entry !in s
    requires Apart(other, u, head, s) && (other != head ==> entry != other && entry !in u)
    modifies head, s, entry`next, entry`prev
    ensures Ring(head, [entry] + s)
    ensures other != head ==> Ring(other, u)
    ensures forall n :: n in s + [head, entry] ==> n.live == old(n.live)
  {
    assert Linked(head, s, -1);
    AddBetween(entry, head, head.next, head, s, 0, other, u);
    assert Inserted(s, 0, entry) == [entry] + s;
  }

  method AddTail<T>(entry: Node<T>, head: Node<T>, ghost s: seq<Node<T>>, ghost other: Node<T>, ghost u: seq<Node<T>>)
    requires Ring(head, s) && entry.live && entry != head && entry !in s
    requires Apart(other, u, head, s) && (other != head ==> entry != other && entry !in u)
    modifies head, s, entry`next, entry`prev
    ensures Ring(head, s + [entry])
    ensures other != head ==> Ring(other, u)
    ensures forall n :: n in s + [head, entry] ==> n.live == old(n.live)
  {
    assert Linked(head, s, |s| - 1);
    AddBetween(entry, head.prev, head, head, s, |s|, other, u);
    assert Inserted(s, |s|, entry) == s + [entry];
  }

  /** __ws4d_list_del on the neighbours of entry i; the entry itself keeps its pointers. */
  method Unlink<T>(entry: Node<T>, ghost head: Node<T>, ghost s: seq<Node<T>>, ghost i: nat,
                   ghost other: Node<T>, ghost u: seq<Node<T>>)
    requires Ring(head, s) && i < |s| && s[i] == entry && Apart(other, u, head, s)
    modifies At(head, s, i - 1)`next, At(head, s, i + 1)`prev
    ensures Ring(head, Without(s, i))
    ensures other != head ==> Ring(other, u)
    ensures entry.live && entry !in Without(s, i) && entry != head
  {
    AtIsNode(head, s, i - 1);
    AtIsNode(head, s, i + 1);
    assert Linked(head, s, i - 1) && Linked(head, s, i);
    var prev, next := entry.prev, entry.next;
    if next != null {
      next.prev := prev;
    }
    if prev != null {
      prev.next := next;
    }
    ghost var t := Without(s, i);
    forall j | -1 <= j < |t|
      ensures Linked(head, t, j)
    {
      if j < i - 1 {
        assert old(Linked(head, s, j));
      } else if j > i - 1 {
        assert old(Linked(head, s, j + 1));
      }
    }
    if other != head {
      forall j | -1 <= j < |u|
        ensures Linked(other, u, j)
      {
        assert old(Linked(other, u, j));
        AtIsNode(other, u, j);
        AtIsNode(other, u, j + 1);
      }
    }
  }

  method Del<T>(entry: Node<T>, ghost head: Node<T>, ghost s: seq<Node<T>>, ghost i: nat,
                ghost other: Node<T>, ghost u: seq<Node<T>>)
    requires Ring(head, s) && i < |s| && s[i] == entry && Apart(other, u, head, s)
    modifies head, s
    ensures Ring(head, Without(s, i)) && Ring(entry, [])
    ensures other != head ==> Ring(other, u)
    ensures forall n :: n in s + [head] ==> n.live == old(n.live)
  {
    Unlink(entry, head, s, i, other, u);
    assert entry in s;
    assert other != head ==> entry != other && entry !in u;
    InitList(entry);
    ghost var t := Without(s, i);
    assert forall j :: -1 <= j < |t| ==> Linked(head, t, j);
    assert other != head ==> forall j :: -1 <= j < |u| ==> Linked(other, u, j);
  }

  /** The lists after entry i of (h, s) has been moved to (head, t), as its first or as its last entry. */
  ghost predicate Moved<T>(entry: Node<T>, head: Node<T>, h: Node<T>, s: seq<Node<T>>, i: nat, t: seq<Node<T>>, last: bool)
    requires i < |s|
    reads head, h, s, t, entry
  {
    if h == head then Ring(h, if last then Without(s, i) + [entry] else [entry] + Without(s, i))
    else Ring(h, Without(s, i)) && Ring(head, if last then t + [entry] else [entry] + t)
  }

  method Move<T>(entry: Node<T>, head: Node<T>, ghost h: Node<T>, ghost s: seq<Node<T>>, ghost i: nat, ghost t: seq<Node<T>>)
    requires Ring(h, s) && i < |s| && s[i] == entry && Apart(head, t, h, s)
    modifies head, h, s, t
    ensures Moved(entry, head, h, s, i, t, false)
    ensures forall n :: n in s + t + [h, head] ==> n.live == old(n.live)
  {
    Unlink(entry, h, s, i, head, t);
    Add(entry, head, if h == head then Without(s, i) else t, h, Without(s, i));
  }

  method MoveTail<T>(entry: Node<T>, head: Node<T>, ghost h: Node<T>, ghost s: seq<Node<T>>, ghost i: nat, ghost t: seq<Node<T>>)
    requires Ring(h, s) && i < |s| && s[i] == entry && Apart(head, t, h, s)
    modifies head, h, s, t
    ensures Moved(entry, head, h, s, i, t, true)
    ensures forall n :: n in s + t + [h, head] ==> n.live == old(n.live)
  {
    Unlink(entry, h, s, i, head, t);
    AddTail(entry, head, if h == head then Without(s, i) else t, h, Without(s, i));
  }

  method Empty<T>(head: Node<T>, ghost s: seq<Node<T>>) returns (empty: bool)
    requires Ring(head, s)
    ensures empty <==> s == []
  {
    assert Linked(head, s, -1) && Linked(head, s, |s| - 1);
    var next := head.next;
    empty := next == head && next == head.prev;
  }

  /** ws4d_list_del and free of entry i. */
  method Drop<T>(entry: Node<T>, ghost head: Node<T>, ghost s: seq<Node<T>>, ghost i: nat)
    requires Ring(head, s) && i < |s| && s[i] == entry
    modifies head, s
    ensures Ring(head, Without(s, i))
    ensures !entry.live && forall n :: n in s && n != entry ==> n.live
  {
    Del(entry, head, s, i, head, []);
    ghost var t := Without(s, i);
    entry.live := false;
    assert forall j :: -1 <= j < |t| ==> Linked(head, t, j);
  }

  // ---------------------------------------------------------------- foreach

  /** The entries of s that are not dropped. */
  ghost function Kept<T>(s: seq<Node<T>>, drop: set<Node<T>>): (r: seq<Node<T>>)
    ensures forall i :: 0 <= i < |r| ==> r[i] in s && r[i] !in drop
    ensures forall i :: 0 <= i < |s| && s[i] !in drop ==> s[i] in r
  {
    if s == [] then []
    else Kept(s[..|s| - 1], drop) + if s[|s| - 1] in drop then [] else [s[|s| - 1]]
  }

  /** What the list holds when the loop stands at entry j. */
  ghost function Left<T>(s: seq<Node<T>>, drop: set<Node<T>>, j: nat): seq<Node<T>>
    requires j <= |s|
  {
    Kept(s[..j], drop) + s[j..]
  }

  /** Where entry j then stands. */
  ghost function Place<T>(s: seq<Node<T>>, drop: set<Node<T>>, j: nat): nat
    requires j <= |s|
  {
    |Kept(s[..j], drop)|
  }

  lemma LeftStep<T>(s: seq<Node<T>>, drop: set<Node<T>>, j: nat)
    requires j < |s|
    ensures Place(s, drop, j) < |Left(s, drop, j)| && Left(s, drop, j)[Place(s, drop, j)] == s[j]
    ensures Left(s, drop, j + 1) == if s[j] in drop then Without(Left(s, drop, j), Place(s, drop, j)) else Left(s, drop, j)
  {
    assert s[..j + 1][..j] == s[..j];
    assert s[j..] == [s[j]] + s[j + 1..];
  }

  lemma LeftAt<T>(head: Node<T>, s: seq<Node<T>>, drop: set<Node<T>>, j: nat)
    requires j <= |s|
    ensures At(head, Left(s, drop, j), Place(s, drop, j)) == At(head, s, j)
    ensures At(head, Left(s, drop, j), Place(s, drop, j) + 1) == if j < |s| then At(head, s, j + 1) else head
  {
  }

  /** The state of the list and its entries then: those dropped so far have been freed. */
  ghost predicate Standing<T>(head: Node<T>, s: seq<Node<T>>, drop: set<Node<T>>, j: nat)
    requires j <= |s|
    reads head, s, Left(s, drop, j)
  {
    && Ring(head, Left(s, drop, j))
    && forall i :: 0 <= i < |s| ==> s[i].live == (i >= j || s[i] !in drop)
  }

  lemma StandingAt<T>(head: Node<T>, s: seq<Node<T>>, drop: set<Node<T>>, j: nat)
    requires j <= |s| && Standing(head, s, drop, j)
    ensures At(head, s, j).live
    ensures At(head, s, j).next == if j < |s| then At(head, s, j + 1) else At(head, s, j).next
  {
    LeftAt(head, s, drop, j);
    if j < |s| {
      LeftStep(s, drop, j);
      assert Linked(head, Left(s, drop, j), Place(s, drop, j));
    }
  }

  lemma StandingFirst<T>(head: Node<T>, s: seq<Node<T>>, drop: set<Node<T>>)
    requires Ring(head, s)
    ensures Standing(head, s, drop, 0)
    ensures head.next == At(head, s, 0) && At(head, s, 0).next == if s == [] then head else At(head, s, 1)
  {
    assert s == Left(s, drop, 0);
    assert Linked(head, s, -1);
    assert s != [] ==> Linked(head, s, 0);
  }

  lemma StandingLast<T>(head: Node<T>, s: seq<Node<T>>, drop: set<Node<T>>, j: nat)
    requires j == |s| && Standing(head, s, drop, j)
    ensures Ring(head, Kept(s, drop))
    ensures forall n :: n in s ==> n.live == (n !in drop)
  {
    assert s[..j] == s;
    assert Left(s, drop, j) == Kept(s, drop);
  }

  lemma LeftWithin<T>(s: seq<Node<T>>, drop: set<Node<T>>, j: nat)
    requires j <= |s|
    ensures forall i :: 0 <= i < |Left(s, drop, j)| ==> Left(s, drop, j)[i] in s
  {
  }

  /** A loop body at entry j: ws4d_list_del and free if the entry is to go, nothing otherwise. */
  method Body<T>(pos: Node<T>, ghost head: Node<T>, drop: set<Node<T>>, ghost s: seq<Node<T>>, ghost j: nat)
    requires j < |s| && pos == s[j] && Distinct(head, s) && Standing(head, s, drop, j)
    modifies head, s
    ensures Standing(head, s, drop, j + 1)
  {
    ghost var now, k := Left(s, drop, j), Place(s, drop, j);
    LeftStep(s, drop, j);
    LeftWithin(s, drop, j);
    if pos in drop {
      Drop(pos, head, now, k);
    }
  }

  /** ws4d_list_foreach with a body that may delete and free the current entry (it does so for the entries
      of `drop`): each entry of the original list is visited once, in order, no freed node is looked at, and
      the entries not dropped remain. */
  method Foreach<T>(head: Node<T>, drop: set<Node<T>>, ghost s: seq<Node<T>>) returns (visited: seq<Node<T>>)
    requires Ring(head, s)
    modifies head, s
    ensures visited == s
    ensures Ring(head, Kept(s, drop))
    ensures forall n :: n in s ==> n.live == (n !in drop)
  {
    visited := [];
    ghost var j := 0;
    StandingFirst(head, s, drop);
    var pos := head.next;
    var n := pos.next;
    while pos != head
      invariant j <= |s| && visited == s[..j]
      invariant pos == At(head, s, j) && (j < |s| ==> n == At(head, s, j + 1))
      invariant Standing(head, s, drop, j)
      decreases |s| - j
    {
      visited := visited + [pos];
      Body(pos, head, drop, s, j);
      j := j + 1;
      pos := n;
      StandingAt(head, s, drop, j);
      n := n.next;
    }
    StandingLast(head, s, drop, j);
  }
}
