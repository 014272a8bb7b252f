/** The gateway's reference-counted services: a list of containers, each with an id and a number of users. */
module ServiceCache {
  import opened Options
  import opened Ws4dList

  // ---------------------------------------------------------------- values

  /** A container as a value. `serial` is how many services had been initialised when this one was. */
  datatype Entry = Entry(id: int, users: int, serial: nat)

  /** The containers in list order, and how often device_init_service has been called. */
  datatype Cache = Cache(entries: seq<Entry>, built: nat)

  /** The first container with this id, |es| if there is none. */
  function Find(es: seq<Entry>, id: int): (k: nat)
    ensures k <= |es|
    ensures forall i :: 0 <= i < k ==> es[i].id != id
    ensures k < |es| ==> es[k].id == id
  {
    if es == [] || es[0].id == id then 0 else 1 + Find(es[1..], id)
  }

  function AddUsers(es: seq<Entry>, k: nat, d: int): seq<Entry>
    requires k < |es|
  {
    es[k := es[k].(users := es[k].users + d)]
  }

  function Registered(c: Cache, id: int): Cache {
    var k := Find(c.entries, id);
    if k < |c.entries| then Cache(AddUsers(c.entries, k, 1), c.built)
    else Cache(c.entries + [Entry(id, 1, c.built)], c.built + 1)
  }

  /** None: the assertion that the id is present fails. */
  function Unregistered(c: Cache, id: int): Option<Cache> {
    var k := Find(c.entries, id);
    if k == |c.entries| then None
    else if c.entries[k].users == 1 then Some(Cache(Without(c.entries, k), c.built))
    else Some(Cache(AddUsers(c.entries, k, -1), c.built))
  }

  /** Nobody without a user, no id twice. */
  predicate Sound(es: seq<Entry>) {
    (forall i :: 0 <= i < |es| ==> es[i].users >= 1) && DistinctIds(es)
  }

  predicate DistinctIds(es: seq<Entry>) {
    forall i, j :: 0 <= i < j < |es| ==> es[i].id != es[j].id
  }

  lemma FirstUser(c: Cache, id: int)
    requires Sound(c.entries) && Find(c.entries, id) == |c.entries|
    ensures var es := c.entries + [Entry(id, 0, c.built)];
            DistinctIds(es) && Cache(AddUsers(es, |c.entries|, 1), c.built + 1) == Registered(c, id)
  {
  }

  lemma LastUser(es: seq<Entry>, k: nat)
    requires k < |es|
    ensures Without(AddUsers(es, k, -1), k) == Without(es, k)
  {
  }

  lemma StaysSound(c: Cache, id: int)
    requires Sound(c.entries)
    ensures Sound(Registered(c, id).entries)
    ensures Unregistered(c, id).Some? ==> Sound(Unregistered(c, id).value.entries)
  {
  }

  // ---------------------------------------------------------------- runs

  datatype Op = Register(id: int) | Unregister(id: int)

  /** The cache after a run from the empty one. */
  function After(ops: seq<Op>): Option<Cache> {
    if ops == [] then Some(Cache([], 0))
    else
      var before := After(ops[..|ops| - 1]);
      if before == None then None else Performed(before.value, ops[|ops| - 1])
  }

  function Performed(c: Cache, op: Op): Option<Cache> {
    match op
    case Register(id) => Some(Registered(c, id))
    case Unregister(id) => Unregistered(c, id)
  }

  function Delta(op: Op, id: int): int {
    if op.id != id then 0 else if op.Register? then 1 else -1
  }

  /** Registrations minus unregistrations. */
  function Balance(ops: seq<Op>, id: int): int {
    if ops == [] then 0 else Balance(ops[..|ops| - 1], id) + Delta(ops[|ops| - 1], id)
  }

  /** Nobody unregisters who is not registered. */
  ghost predicate Allowed(ops: seq<Op>) {
    forall i :: 0 <= i < |ops| && ops[i].Unregister? ==> Balance(ops[..i], ops[i].id) > 0
  }

  /** Whether `op`, after the run `ops`, brings the service `id` to life. */
  predicate Birth(ops: seq<Op>, op: Op, id: int) {
    op == Register(id) && Balance(ops, id) == 0
  }

  function Births(ops: seq<Op>): nat {
    if ops == [] then 0
    else Births(ops[..|ops| - 1]) + if Birth(ops[..|ops| - 1], ops[|ops| - 1], ops[|ops| - 1].id) then 1 else 0
  }

  /** How many services had been born when the service of this id was last born. */
  function BornAs(ops: seq<Op>, id: int): nat {
    if ops == [] then 0
    else if Birth(ops[..|ops| - 1], ops[|ops| - 1], id) then Births(ops[..|ops| - 1])
    else BornAs(ops[..|ops| - 1], id)
  }

  lemma Extend(ops: seq<Op>, op: Op, id: int)
    ensures Balance(ops + [op], id) == Balance(ops, id) + Delta(op, id)
    ensures Births(ops + [op]) == Births(ops) + if Birth(ops, op, op.id) then 1 else 0
    ensures BornAs(ops + [op], id) == if Birth(ops, op, id) then Births(ops) else BornAs(ops, id)
  {
    assert (ops + [op])[..|ops|] == ops;
  }

  predicate Present(es: seq<Entry>, id: int) {
    exists i :: 0 <= i < |es| && es[i].id == id
  }

  ghost predicate EntryRefines(e: Entry, ops: seq<Op>) {
    e.users == Balance(ops, e.id) >= 1 && e.serial == BornAs(ops, e.id) < Births(ops)
  }

  /** What the run determines: who is present, with how many users, in one container per lifetime, oldest first. */
  ghost predicate Refines(c: Cache, ops: seq<Op>) {
    && c.built == Births(ops)
    && (forall i :: 0 <= i < |c.entries| ==> EntryRefines(c.entries[i], ops))
    && (forall i, j :: 0 <= i < j < |c.entries| ==> c.entries[i].serial < c.entries[j].serial)
    && (forall id :: Balance(ops, id) >= 0)
    && (forall id :: Balance(ops, id) > 0 ==> Present(c.entries, id))
  }

  lemma FindIs(es: seq<Entry>, id: int, k: nat)
    requires k < |es| && es[k].id == id && forall i, j :: 0 <= i < j < |es| ==> es[i].id != es[j].id
    ensures Find(es, id) == k
  {
  }

  /** Ids are distinct, because a serial belongs to one id. */
  lemma IdsDistinct(c: Cache, ops: seq<Op>)
    requires Refines(c, ops)
    ensures forall i, j :: 0 <= i < j < |c.entries| ==> c.entries[i].id != c.entries[j].id
  {
    forall i, j | 0 <= i < j < |c.entries|
      ensures c.entries[i].id != c.entries[j].id
    {
      assert EntryRefines(c.entries[i], ops) && EntryRefines(c.entries[j], ops);
    }
  }

  /** One user more or less, of a service that stays. */
  lemma AdjustRefines(c: Cache, ops: seq<Op>, op: Op, k: nat)
    requires Refines(c, ops) && k < |c.entries| && c.entries[k].id == op.id && c.entries[k].users + Delta(op, op.id) >= 1
    ensures Refines(Cache(AddUsers(c.entries, k, Delta(op, op.id)), c.built), ops + [op])
  {
    var es, fs := c.entries, AddUsers(c.entries, k, Delta(op, op.id));
    IdsDistinct(c, ops);
    assert EntryRefines(es[k], ops);
    Extend(ops, op, op.id);
    forall i | 0 <= i < |fs|
      ensures EntryRefines(fs[i], ops + [op])
    {
      assert EntryRefines(es[i], ops);
      Extend(ops, op, fs[i].id);
    }
    forall x
      ensures Balance(ops + [op], x) >= 0
      ensures Balance(ops + [op], x) > 0 ==> Present(fs, x)
    {
      Extend(ops, op, x);
      assert forall m :: 0 <= m < |es| ==> fs[m].id == es[m].id;
    }
  }

  /** The first user. */
  lemma BirthRefines(c: Cache, ops: seq<Op>, id: int)
    requires Refines(c, ops) && !Present(c.entries, id)
    ensures Refines(Cache(c.entries + [Entry(id, 1, c.built)], c.built + 1), ops + [Register(id)])
  {
    var op, es, fs := Register(id), c.entries, c.entries + [Entry(id, 1, c.built)];
    Extend(ops, op, id);
    forall i | 0 <= i < |fs|
      ensures EntryRefines(fs[i], ops + [op])
    {
      Extend(ops, op, fs[i].id);
      if i < |es| {
        assert EntryRefines(es[i], ops);
      }
    }
    forall x
      ensures Balance(ops + [op], x) >= 0
      ensures Balance(ops + [op], x) > 0 ==> Present(fs, x)
    {
      Extend(ops, op, x);
      assert fs[|es|].id == id;
      assert forall m :: 0 <= m < |es| ==> fs[m] == es[m];
    }
  }

  lemma WithoutAt(es: seq<Entry>, k: nat)
    requires k < |es|
    ensures forall m :: 0 <= m < |es| && m != k ==> es[m] in Without(es, k)
    ensures forall i :: 0 <= i < |es| - 1 ==> Without(es, k)[i] == es[if i < k then i else i + 1]
  {
    forall m | 0 <= m < |es| && m != k
      ensures es[m] in Without(es, k)
    {
      assert Without(es, k)[if m < k then m else m - 1] == es[m];
    }
  }

  /** The last user. */
  lemma DeathRefines(c: Cache, ops: seq<Op>, k: nat)
    requires Refines(c, ops) && k < |c.entries| && c.entries[k].users == 1
    ensures Refines(Cache(Without(c.entries, k), c.built), ops + [Unregister(c.entries[k].id)])
  {
    var op, es, fs := Unregister(c.entries[k].id), c.entries, Without(c.entries, k);
    IdsDistinct(c, ops);
    assert EntryRefines(es[k], ops);
    Extend(ops, op, op.id);
    WithoutAt(es, k);
    forall i | 0 <= i < |fs|
      ensures EntryRefines(fs[i], ops + [op])
    {
      assert EntryRefines(es[if i < k then i else i + 1], ops);
      Extend(ops, op, fs[i].id);
    }
    forall x
      ensures Balance(ops + [op], x) >= 0
      ensures Balance(ops + [op], x) > 0 ==> Present(fs, x)
    {
      Extend(ops, op, x);
      if Balance(ops + [op], x) > 0 {
        var m :| 0 <= m < |es| && es[m].id == x;
        assert es[m] in fs;
      }
    }
  }

  lemma RegisterRefines(c: Cache, ops: seq<Op>, id: int)
    requires Refines(c, ops)
    ensures Refines(Registered(c, id), ops + [Register(id)])
  {
    var k := Find(c.entries, id);
    if k < |c.entries| {
      assert EntryRefines(c.entries[k], ops);
      AdjustRefines(c, ops, Register(id), k);
    } else {
      BirthRefines(c, ops, id);
    }
  }

  lemma UnregisterRefines(c: Cache, ops: seq<Op>, id: int)
    requires Refines(c, ops)
    ensures Unregistered(c, id).Some? <==> Balance(ops, id) > 0
    ensures Balance(ops, id) > 0 ==> Refines(Unregistered(c, id).value, ops + [Unregister(id)])
  {
    var k := Find(c.entries, id);
    if k < |c.entries| {
      assert EntryRefines(c.entries[k], ops);
      if c.entries[k].users == 1 {
        DeathRefines(c, ops, k);
      } else {
        AdjustRefines(c, ops, Unregister(id), k);
      }
    }
  }

  lemma AllowedOneMore(ops: seq<Op>)
    requires ops != []
    ensures var init, op := ops[..|ops| - 1], ops[|ops| - 1];
            Allowed(ops) <==> Allowed(init) && (op.Unregister? ==> Balance(init, op.id) > 0)
  {
    var n := |ops| - 1;
    var init := ops[..n];
    assert forall i :: 0 <= i < n ==> init[i] == ops[i] && init[..i] == ops[..i];
    if Allowed(ops) {
      forall i | 0 <= i < n && init[i].Unregister?
        ensures Balance(init[..i], init[i].id) > 0
      {
        assert Balance(ops[..i], ops[i].id) > 0;
      }
    }
  }

  /** One operation after a run that got through. */
  lemma PerformedRefines(c: Cache, ops: seq<Op>, op: Op)
    requires Refines(c, ops)
    ensures Performed(c, op).Some? <==> (op.Unregister? ==> Balance(ops, op.id) > 0)
    ensures Performed(c, op).Some? ==> Refines(Performed(c, op).value, ops + [op])
  {
    match op
    case Register(id) => RegisterRefines(c, ops, id);
    case Unregister(id) => UnregisterRefines(c, ops, id);
  }

  /** The cache refines a map from ids to user counts: a run gets through exactly if nobody unregisters
      unregistered, and then `Refines` says what it leaves. */
  lemma {:induction false} CacheIsCounting(ops: seq<Op>)
    ensures After(ops).Some? <==> Allowed(ops)
    ensures Allowed(ops) ==> Refines(After(ops).value, ops)
  {
    if ops != [] {
      var init, op := ops[..|ops| - 1], ops[|ops| - 1];
      CacheIsCounting(init);
      AllowedOneMore(ops);
      if Allowed(init) {
        PerformedRefines(After(init).value, init, op);
        assert ops == init + [op];
      }
    } else {
      EmptyRefines();
    }
  }

  lemma EmptyRefines()
    ensures Refines(Cache([], 0), [])
  {
  }

  // ---------------------------------------------------------------- the heap

  /** struct soap, of which only the listening socket matters here. */
  class Soap {
    var master: int

    constructor ()
      ensures master == -1
    {
      master := -1;
    }
  }

  /** struct service_container. `serial` records when its service was initialised. */
  class Container {
    var list: Node?<Container>
    var service_id: int
    var num_users: int
    const service: Soap
    ghost const serial: nat

    constructor (service_id: int, ghost serial: nat)
      ensures this.service_id == service_id && num_users == 0 && this.serial == serial
      ensures list != null && fresh(list) && list.owner == Some(this) && list.live
    {
      this.service_id, num_users, this.serial := service_id, 0, serial;
      service := new Soap();
      new;
      list := new Node(Some(this));
    }
  }

  ghost function Entries(items: seq<Container>): (r: seq<Entry>)
    reads items
    ensures |r| == |items|
  {
    seq(|items|, i requires 0 <= i < |items| reads items => Entry(items[i].service_id, items[i].num_users, items[i].serial))
  }

  class ServiceList {
    const head: Node<Container>
    ghost var nodes: seq<Node<Container>>
    ghost var items: seq<Container>
    ghost var built: nat

    /** The containers are what the nodes of the list are embedded in. */
    ghost predicate Listed()
      reads this, head, nodes, items
    {
      && Ring(head, nodes)
      && |nodes| == |items|
      && forall i :: 0 <= i < |items| ==> nodes[i].owner == Some(items[i]) && items[i].list == nodes[i]
    }

    ghost predicate Valid()
      reads this, head, nodes, items
    {
      && Listed()
      && Sound(Entries(items))
    }

    ghost function View(): Cache
      reads this, items
    {
      Cache(Entries(items), built)
    }

    ghost function Repr(): set<object>
      reads this
    {
      {head} + (set n: Node<Container> | n in nodes) + (set c: Container | c in items)
    }

    /** service_cache_init */
    constructor ()
      ensures Valid() && View() == Cache([], 0) && fresh(Repr())
    {
      head := new Node(None);
      nodes, items, built := [], [], 0;
      new;
      InitList(head);
    }

    /** __list_get_container: the search stops at the first match. */
    method ListGetContainer(service_id: int) returns (sc: Container?)
      requires Valid()
      ensures var k := Find(Entries(items), service_id); sc == if k < |items| then items[k] else null
    {
      RingAt(head, nodes, -1);
      var pos := head.next;
      ghost var j := 0;
      while pos != head
        invariant 0 <= j <= |nodes| && pos == At(head, nodes, j)
        invariant forall i :: 0 <= i < j ==> Entries(items)[i].id != service_id
        decreases |nodes| - j
      {
        assert pos == nodes[j];
        var c := pos.owner.value;
        if c.service_id == service_id {
          FindIs(Entries(items), service_id, j);
          return c;
        }
        RingAt(head, nodes, j);
        pos := pos.next;
        j := j + 1;
      }
      return null;
    }

    /** __list_add_container */
    method ListAddContainer(sc: Container)
      requires Listed() && sc !in items
      requires sc.list != null && sc.list.owner == Some(sc) && sc.list.live && sc.list != head
      modifies this, head, nodes, sc.list
      ensures Listed() && nodes == old(nodes) + [sc.list] && items == old(items) + [sc] && built == old(built)
    {
      assert forall n :: n in nodes ==> n.owner != Some(sc);
      AddTail(sc.list, head, nodes, head, []);
      nodes, items := nodes + [sc.list], items + [sc];
    }

    /** __build_service and __list_add_container: initialised once, with no user yet. */
    method Build(service_id: int) returns (sc: Container)
      requires Listed()
      modifies this, head, nodes
      ensures Listed() && fresh(sc) && fresh(sc.list) && nodes == old(nodes) + [sc.list] && items == old(items) + [sc] && built == old(built) + 1
      ensures Entries(items) == old(Entries(items)) + [Entry(service_id, 0, old(built))]
    {
      sc := new Container(service_id, built);
      built := built + 1;
      ListAddContainer(sc);
    }

    /** ws4d_list_del and free of container k. */
    method ListDelContainer(sc: Container, ghost k: nat)
      requires Listed() && k < |items| && items[k] == sc
      modifies this, head, nodes
      ensures Listed() && nodes == Without(old(nodes), k) && items == Without(old(items), k) && built == old(built)
      ensures Entries(items) == Without(old(Entries(items)), k)
      ensures !old(nodes[k]).live
    {
      Drop(sc.list, head, nodes, k);
      nodes, items := Without(nodes, k), Without(items, k);
    }

    /** __register_node (d is 1) and __unregister_node (d is -1) */
    method CountUser(sc: Container, d: int, ghost k: nat)
      requires Listed() && k < |items| && items[k] == sc
      requires DistinctIds(Entries(items))
      modifies sc`num_users
      ensures Listed() && sc.num_users == old(sc.num_users) + d && Entries(items) == AddUsers(old(Entries(items)), k, d)
    {
      assert forall i :: 0 <= i < |items| && i != k ==> Entries(items)[i].id != Entries(items)[k].id;
      sc.num_users := sc.num_users + d;
      assert forall i :: 0 <= i < |items| && i != k ==> items[i] != sc;
    }

    /** The container with this id, built if there is none; it has yet to be counted. */
    method FindOrBuild(service_id: int) returns (sc: Container)
      requires Valid()
      modifies this, head, nodes
      ensures var k := Find(old(Entries(items)), service_id);
              && Listed() && k < |items| && items[k] == sc && DistinctIds(Entries(items))
              && Cache(AddUsers(Entries(items), k, 1), built) == Registered(old(View()), service_id)
              && if k < old(|items|) then items == old(items) && nodes == old(nodes)
                 else fresh(sc) && fresh(sc.list) && items == old(items) + [sc] && nodes == old(nodes) + [sc.list]
    {
      var found := ListGetContainer(service_id);
      if found == null {
        FirstUser(View(), service_id);
        sc := Build(service_id);
      } else {
        sc := found;
      }
    }

    /** service_cache_register_node_on_service: the container whose service is handed out. */
    method Register(service_id: int) returns (sc: Container)
      requires Valid()
      modifies this, head, nodes, items
      ensures Valid() && View() == Registered(old(View()), service_id)
      ensures var k := Find(old(Entries(items)), service_id);
              if k < old(|items|) then items == old(items) && sc == items[k]
              else fresh(sc) && items == old(items) + [sc]
      ensures fresh(Repr() - old(Repr()))
    {
      ghost var k := Find(Entries(items), service_id);
      sc := FindOrBuild(service_id);
      CountUser(sc, 1, k);
      StaysSound(old(View()), service_id);
    }

    /** service_cache_unregister_node_on_service, on an id that is present. */
    method Unregister(service_id: int)
      requires Valid() && Unregistered(View(), service_id).Some?
      modifies this, head, nodes, items
      ensures Valid() && Some(View()) == Unregistered(old(View()), service_id)
      ensures fresh(Repr() - old(Repr()))
      ensures var k := Find(old(Entries(items)), service_id);
              if old(items[k].num_users) > 1 then items == old(items)
              else items == Without(old(items), k) && !old(nodes[k]).live
    {
      var sc := ListGetContainer(service_id);
      ghost var k := Find(old(Entries(items)), service_id);
      CountUser(sc, -1, k);
      if sc.num_users == 0 {
        LastUser(old(Entries(items)), k);
        ListDelContainer(sc, k);
      }
      StaysSound(old(View()), service_id);
    }

    /** service_cache_count_services */
    method CountServices() returns (count: int)
      requires Valid()
      ensures count == |items|
    {
      RingAt(head, nodes, -1);
      var pos := head.next;
      count := 0;
      while pos != head
        invariant 0 <= count <= |nodes| && pos == At(head, nodes, count)
        decreases |nodes| - count
      {
        RingAt(head, nodes, count);
        pos := pos.next;
        count := count + 1;
      }
    }

    /** service_cache_get_service: null past the end and for a negative index. */
    method GetService(index: int) returns (service: Soap?)
      requires Valid()
      ensures service == if 0 <= index < |items| then items[index].service else null
    {
      var services := CountServices();
      if services <= index {
        return null;
      }
      RingAt(head, nodes, -1);
      var pos := head.next;
      var count := 0;
      while pos != head
        invariant 0 <= count <= |nodes| && pos == At(head, nodes, count)
        invariant index < 0 || count <= index
        decreases |nodes| - count
      {
        if count == index {
          return pos.owner.value.service;
        }
        RingAt(head, nodes, count);
        pos := pos.next;
        count := count + 1;
      }
      return null;
    }
  }

  method Perform(cache: ServiceList, op: Op)
    requires cache.Valid() && Performed(cache.View(), op).Some?
    modifies cache, cache.Repr()
    ensures cache.Valid() && Some(cache.View()) == Performed(old(cache.View()), op)
    ensures fresh(cache.Repr() - old(cache.Repr()))
  {
    match op
    case Register(id) => var _ := cache.Register(id);
    case Unregister(id) => cache.Unregister(id);
  }

  lemma Prefix(ops: seq<Op>, n: nat)
    requires Allowed(ops) && n <= |ops|
    ensures Allowed(ops[..n])
  {
    forall i | 0 <= i < n && ops[i].Unregister?
      ensures Balance(ops[..n][..i], ops[i].id) > 0
    {
      assert ops[..n][..i] == ops[..i];
    }
  }

  lemma Next(ops: seq<Op>, i: nat)
    requires Allowed(ops) && i < |ops|
    ensures After(ops[..i]).Some? && Performed(After(ops[..i]).value, ops[i]).Some?
    ensures After(ops[..i + 1]) == Performed(After(ops[..i]).value, ops[i])
  {
    assert ops[..i + 1][..i] == ops[..i];
    Prefix(ops, i);
    Prefix(ops, i + 1);
    CacheIsCounting(ops[..i]);
    CacheIsCounting(ops[..i + 1]);
  }

  /** Any run that unregisters only who is registered, on the heap: what it leaves is what the run determines. */
  method Replay(ops: seq<Op>) returns (cache: ServiceList)
    requires Allowed(ops)
    ensures cache.Valid() && Refines(cache.View(), ops)
  {
    cache := new ServiceList();
    for i := 0 to |ops|
      invariant fresh(cache) && fresh(cache.Repr())
      invariant cache.Valid() && Some(cache.View()) == After(ops[..i])
    {
      Next(ops, i);
      Perform(cache, ops[i]);
    }
    CacheIsCounting(ops);
    assert ops[..|ops|] == ops;
  }
}
