/** The handles the gateway waits on: gathered from the services and the devices, given to select, and the
    first one that select finds ready. */
module AcceptSet {
  import opened Options
  import opened Sequences
  import opened Ws4dList
  import opened ServiceCache

  /** SOAP_INVALID_SOCKET */
  const INVALID_SOCKET := -1

  /** remote_device with the two handles of its dpws_device. */
  class RemoteDevice {
    var dis_mca: Soap?
    var hosting_handle: Soap?

    constructor (dis_mca: Soap?, hosting_handle: Soap?)
      ensures this.dis_mca == dis_mca && this.hosting_handle == hosting_handle
    {
      this.dis_mca, this.hosting_handle := dis_mca, hosting_handle;
    }
  }

  // ---------------------------------------------------------------- specification

  ghost function HandlesOf(d: RemoteDevice): (r: seq<Soap>)
    reads d
  {
    (if d.dis_mca == null then [] else [d.dis_mca]) + (if d.hosting_handle == null then [] else [d.hosting_handle])
  }

  /** Each device's handles, in list order. */
  ghost function DeviceHandles(ds: seq<RemoteDevice>): (r: seq<Soap>)
    reads ds
    ensures |r| <= 2 * |ds|
  {
    if ds == [] then [] else DeviceHandles(ds[..|ds| - 1]) + HandlesOf(ds[|ds| - 1])
  }

  ghost function ServiceHandles(cs: seq<Container>): (r: seq<Soap>)
    ensures |r| == |cs|
  {
    seq(|cs|, i requires 0 <= i < |cs| => cs[i].service)
  }

  /** The node list of the devices. */
  ghost predicate DeviceList(head: Node<RemoteDevice>, ns: seq<Node<RemoteDevice>>, ds: seq<RemoteDevice>)
    reads head, ns
  {
    Ring(head, ns) && |ns| == |ds| && forall i :: 0 <= i < |ds| ==> ns[i].owner == Some(ds[i])
  }

  /** What select comes back with. */
  datatype Outcome = Failed | TimedOut | Ready(fds: set<int>)

  /** What select is asked: its first argument, and the descriptors set. */
  datatype Question = Question(nfds: int, fds: set<int>)

  ghost predicate AllValid(hs: seq<Soap>)
    reads hs
  {
    forall i :: 0 <= i < |hs| ==> hs[i].master != -1
  }

  /** All the sockets, and one more than the greatest of them. */
  ghost predicate Asks(q: Question, hs: seq<Soap>)
    reads hs
  {
    && (forall i :: 0 <= i < |hs| ==> hs[i].master in q.fds && hs[i].master < q.nfds)
    && (forall x :: x in q.fds ==> exists i :: 0 <= i < |hs| && hs[i].master == x)
    && q.nfds >= 0
    && (q.nfds > 0 ==> q.nfds - 1 in q.fds)
  }

  /** The first outcome that is not a failure. */
  function Settled(outcomes: seq<Outcome>): (o: Outcome)
    ensures o == Failed <==> forall i :: 0 <= i < |outcomes| ==> outcomes[i] == Failed
  {
    if outcomes == [] then Failed
    else if outcomes[0] != Failed then outcomes[0] else Settled(outcomes[1..])
  }

  /** The first handle, in order, whose socket is ready. */
  ghost predicate IsFirstReady(result: Soap?, hs: seq<Soap>, o: Outcome)
    reads hs
  {
    if result == null then forall i :: 0 <= i < |hs| ==> o.Ready? ==> hs[i].master !in o.fds
    else o.Ready? && exists k :: 0 <= k < |hs| && hs[k] == result && IsFirstAt(hs, k, o.fds)
  }

  ghost predicate IsFirstAt(hs: seq<Soap>, k: nat, fds: set<int>)
    requires k < |hs|
    reads hs
  {
    hs[k].master in fds && forall i :: 0 <= i < k ==> hs[i].master !in fds
  }

  // ---------------------------------------------------------------- in terms of the devices' fields

  function One(h: Soap?): nat {
    if h == null then 0 else 1
  }

  /** How many handles the devices have. */
  ghost function Count(ds: seq<RemoteDevice>): nat
    reads ds
  {
    if ds == [] then 0 else Count(ds[..|ds| - 1]) + One(ds[|ds| - 1].dis_mca) + One(ds[|ds| - 1].hosting_handle)
  }

  /** Device i's handles follow those of the devices before it: dis_mca, and next to it hosting_handle. */
  ghost predicate Placed(r: seq<Soap?>, start: nat, ds: seq<RemoteDevice>, i: nat)
    requires i < |ds|
    reads ds
  {
    var d, k := ds[i], start + Count(ds[..i]);
    && k + One(d.dis_mca) + One(d.hosting_handle) <= |r|
    && (d.dis_mca != null ==> r[k] == d.dis_mca)
    && (d.hosting_handle != null ==> r[k + One(d.dis_mca)] == d.hosting_handle)
  }

  /** Entry k is among those of device i. */
  ghost predicate Within(start: nat, ds: seq<RemoteDevice>, i: nat, k: nat)
    requires i < |ds|
    reads ds
  {
    var d, first := ds[i], start + Count(ds[..i]);
    first <= k < first + One(d.dis_mca) + One(d.hosting_handle)
  }

  ghost predicate Owned(start: nat, ds: seq<RemoteDevice>, k: nat)
    reads ds
  {
    exists i :: 0 <= i < |ds| && Within(start, ds, i, k)
  }

  /** The services, in order, then each device's handles, in order, and nothing else. */
  ghost predicate Gathered(r: seq<Soap?>, cs: seq<Container>, ds: seq<RemoteDevice>)
    reads ds
  {
    && |r| == |cs| + Count(ds)
    && (forall k :: 0 <= k < |cs| ==> r[k] == cs[k].service)
    && (forall i :: 0 <= i < |ds| ==> Placed(r, |cs|, ds, i))
    && (forall k :: |cs| <= k < |r| ==> Owned(|cs|, ds, k))
  }

  lemma {:induction false} PlacedAt(ds: seq<RemoteDevice>, i: nat)
    requires i < |ds|
    ensures |DeviceHandles(ds)| == Count(ds) && Placed(DeviceHandles(ds), 0, ds, i)
  {
    var init := ds[..|ds| - 1];
    LengthIsCount(init);
    if i < |init| {
      PlacedAt(init, i);
      assert init[..i] == ds[..i];
    }
  }

  lemma {:induction false} LengthIsCount(ds: seq<RemoteDevice>)
    ensures |DeviceHandles(ds)| == Count(ds)
  {
    if ds != [] {
      LengthIsCount(ds[..|ds| - 1]);
    }
  }

  lemma {:induction false} OwnerOf(ds: seq<RemoteDevice>, k: nat) returns (i: nat)
    requires k < Count(ds)
    ensures i < |ds| && Within(0, ds, i, k)
  {
    var init := ds[..|ds| - 1];
    if k < Count(init) {
      i := OwnerOf(init, k);
      assert init[..i] == ds[..i];
    } else {
      i := |ds| - 1;
    }
  }

  /** An earlier device's handles stand before a later one's. */
  lemma {:induction false} InListOrder(ds: seq<RemoteDevice>, i: nat, j: nat)
    requires i < j <= |ds|
    ensures Count(ds[..i]) + One(ds[i].dis_mca) + One(ds[i].hosting_handle) <= Count(ds[..j])
  {
    assert ds[..j][..j - 1] == ds[..j - 1];
    if i < j - 1 {
      InListOrder(ds, i, j - 1);
    }
  }

  lemma GatheredIs(r: seq<Soap?>, cs: seq<Container>, ds: seq<RemoteDevice>)
    requires r == ServiceHandles(cs) + DeviceHandles(ds)
    ensures Gathered(r, cs, ds)
  {
    LengthIsCount(ds);
    forall i | 0 <= i < |ds|
      ensures Placed(r, |cs|, ds, i)
    {
      PlacedAt(ds, i);
    }
    forall k | |cs| <= k < |r|
      ensures Owned(|cs|, ds, k)
    {
      var i := OwnerOf(ds, k - |cs|);
      assert Within(|cs|, ds, i, k);
    }
  }

  /** A set of handles gathered holds every handle of every device, and besides the services nothing else. */
  lemma GatheredHolds(r: seq<Soap?>, cs: seq<Container>, ds: seq<RemoteDevice>)
    requires Gathered(r, cs, ds)
    ensures forall h :: h in r <==> h != null && ((exists c :: c in cs && c.service == h)
                                                  || exists d :: d in ds && (d.dis_mca == h || d.hosting_handle == h))
  {
    forall k | 0 <= k < |r|
      ensures r[k] != null
      ensures (exists c :: c in cs && c.service == r[k]) || exists d :: d in ds && (d.dis_mca == r[k] || d.hosting_handle == r[k])
    {
      if k < |cs| {
        assert cs[k] in cs && r[k] == cs[k].service;
      } else {
        assert Owned(|cs|, ds, k);
        var i :| 0 <= i < |ds| && Within(|cs|, ds, i, k);
        assert Placed(r, |cs|, ds, i) && ds[i] in ds;
      }
    }
    forall d, h | d in ds && h != null && (d.dis_mca == h || d.hosting_handle == h)
      ensures h in r
    {
      var i :| 0 <= i < |ds| && ds[i] == d;
      assert Placed(r, |cs|, ds, i);
    }
    forall c | c in cs
      ensures c.service in r
    {
      var k :| 0 <= k < |cs| && cs[k] == c;
      assert r[k] == c.service;
    }
  }

  // ---------------------------------------------------------------- the first that is ready

  ghost function HandlesRead(ds: seq<RemoteDevice>): set<Soap?>
    reads ds
  {
    (set d | d in ds :: d.dis_mca) + (set d | d in ds :: d.hosting_handle)
  }

  ghost predicate Open(h: Soap?)
    reads h
  {
    h != null ==> h.master != -1
  }

  /** Every handle has a socket. */
  ghost predicate AllOpen(cs: seq<Container>, ds: seq<RemoteDevice>)
    reads set c | c in cs :: c.service, ds, HandlesRead(ds)
  {
    && (forall c :: c in cs ==> Open(c.service))
    && (forall d :: d in ds ==> Open(d.dis_mca) && Open(d.hosting_handle))
  }

  ghost predicate IsReady(h: Soap?, fds: set<int>)
    reads h
  {
    h != null && h.master in fds
  }

  ghost predicate DeviceReady(d: RemoteDevice, fds: set<int>)
    reads d, d.dis_mca, d.hosting_handle
  {
    IsReady(d.dis_mca, fds) || IsReady(d.hosting_handle, fds)
  }

  /** The first service that is ready. */
  ghost predicate ServiceFound(result: Soap?, cs: seq<Container>, fds: set<int>)
    reads set c | c in cs :: c.service
  {
    exists k :: 0 <= k < |cs| && result == cs[k].service && IsReady(result, fds) && forall j :: 0 <= j < k ==> !IsReady(cs[j].service, fds)
  }

  /** No service is ready; of the first device with a ready handle it is that handle, dis_mca if both are. */
  ghost predicate DeviceFound(result: Soap?, cs: seq<Container>, ds: seq<RemoteDevice>, fds: set<int>)
    reads set c | c in cs :: c.service, ds, HandlesRead(ds)
  {
    && (forall c :: c in cs ==> !IsReady(c.service, fds))
    && exists i :: 0 <= i < |ds| && (forall j :: 0 <= j < i ==> !DeviceReady(ds[j], fds)) && DeviceReady(ds[i], fds)
                   && result == if IsReady(ds[i].dis_mca, fds) then ds[i].dis_mca else ds[i].hosting_handle
  }

  ghost predicate NoneReady(cs: seq<Container>, ds: seq<RemoteDevice>, fds: set<int>)
    reads set c | c in cs :: c.service, ds, HandlesRead(ds)
  {
    (forall c :: c in cs ==> !IsReady(c.service, fds)) && forall d :: d in ds ==> !DeviceReady(d, fds)
  }

  lemma NoneIsReady(hs: seq<Soap>, cs: seq<Container>, ds: seq<RemoteDevice>, fds: set<int>)
    requires Gathered(hs, cs, ds) && IsFirstReady(null, hs, Ready(fds))
    ensures NoneReady(cs, ds, fds)
  {
    GatheredHolds(hs, cs, ds);
    forall h | IsReady(h, fds)
      ensures h !in hs
    {
    }
  }

  lemma EarlierNotReady(hs: seq<Soap>, cs: seq<Container>, ds: seq<RemoteDevice>, fds: set<int>, k: nat, i: nat, j: nat)
    requires Gathered(hs, cs, ds) && k < |hs| && IsFirstAt(hs, k, fds)
    requires j < i < |ds| && Within(|cs|, ds, i, k)
    ensures !DeviceReady(ds[j], fds)
  {
    InListOrder(ds, j, i);
    assert Placed(hs, |cs|, ds, j);
  }

  lemma OfDevice(hs: seq<Soap>, cs: seq<Container>, ds: seq<RemoteDevice>, fds: set<int>, k: nat, i: nat)
    requires Gathered(hs, cs, ds) && k < |hs| && IsFirstAt(hs, k, fds)
    requires i < |ds| && Within(|cs|, ds, i, k)
    ensures DeviceReady(ds[i], fds) && hs[k] == if IsReady(ds[i].dis_mca, fds) then ds[i].dis_mca else ds[i].hosting_handle
  {
    assert Placed(hs, |cs|, ds, i);
  }

  lemma FirstIsFound(hs: seq<Soap>, cs: seq<Container>, ds: seq<RemoteDevice>, fds: set<int>, k: nat)
    requires Gathered(hs, cs, ds) && k < |hs| && IsFirstAt(hs, k, fds)
    ensures if k < |cs| then ServiceFound(hs[k], cs, fds) else DeviceFound(hs[k], cs, ds, fds)
  {
    if k < |cs| {
      assert hs[k] == cs[k].service;
    } else {
      assert Owned(|cs|, ds, k);
      var i :| 0 <= i < |ds| && Within(|cs|, ds, i, k);
      forall j | 0 <= j < i
        ensures !DeviceReady(ds[j], fds)
      {
        EarlierNotReady(hs, cs, ds, fds, k, i, j);
      }
      OfDevice(hs, cs, ds, fds, k, i);
      forall c | c in cs
        ensures !IsReady(c.service, fds)
      {
        var j :| 0 <= j < |cs| && cs[j] == c;
        assert hs[j] == cs[j].service;
      }
    }
  }

  /** What maccept is to return, from the services and the devices' fields alone. */
  ghost predicate Answers(result: Soap?, cs: seq<Container>, ds: seq<RemoteDevice>, o: Outcome)
    reads set c | c in cs :: c.service, ds, HandlesRead(ds)
  {
    if !AllOpen(cs, ds) || !o.Ready? || NoneReady(cs, ds, o.fds) then result == null
    else ServiceFound(result, cs, o.fds) || DeviceFound(result, cs, ds, o.fds)
  }

  /** The handles gathered are valid exactly if all are open, and the first ready one of them is the answer. */
  lemma FirstAnswers(result: Soap?, hs: seq<Soap>, cs: seq<Container>, ds: seq<RemoteDevice>, o: Outcome)
    requires Gathered(hs, cs, ds)
    requires if AllValid(hs) then IsFirstReady(result, hs, o) else result == null
    ensures AllValid(hs) <==> AllOpen(cs, ds)
    ensures Answers(result, cs, ds, o)
  {
    ValidIsOpen(hs, cs, ds);
    if AllValid(hs) && o.Ready? {
      if result == null {
        NoneIsReady(hs, cs, ds, o.fds);
      } else {
        var k :| 0 <= k < |hs| && hs[k] == result && IsFirstAt(hs, k, o.fds);
        FirstIsFound(hs, cs, ds, o.fds, k);
      }
    }
  }

  lemma ValidIsOpen(hs: seq<Soap>, cs: seq<Container>, ds: seq<RemoteDevice>)
    requires Gathered(hs, cs, ds)
    ensures AllValid(hs) <==> AllOpen(cs, ds)
  {
    GatheredHolds(hs, cs, ds);
    if forall h :: h in hs ==> Open(h) {
      forall i | 0 <= i < |hs|
        ensures hs[i].master != -1
      {
        assert hs[i] in hs;
      }
    }
  }

  // ---------------------------------------------------------------- the code

  /** proxy_structures_accept on the first `count` handles: one unregistered handle stops it before select. */
  method Accept(count: nat, soap_handles: array?<Soap?>, outcomes: seq<Outcome>, ghost hs: seq<Soap>)
      returns (result: Soap?, asked: Option<Question>)
    requires soap_handles != null ==> count <= soap_handles.Length && soap_handles[..count] == hs
    requires Settled(outcomes) != Failed
    ensures asked.Some? <==> soap_handles != null && AllValid(hs)
    ensures asked.None? ==> result == null
    ensures asked.Some? ==> Asks(asked.value, hs) && IsFirstReady(result, hs, Settled(outcomes))
  {
    result, asked := null, None;
    if soap_handles == null {
      return;
    }
    var bigfd, fd: set<int> := INVALID_SOCKET, {};
    var i := 0;
    while i < count
      invariant 0 <= i <= count
      invariant forall j :: 0 <= j < i ==> hs[j].master != INVALID_SOCKET && hs[j].master in fd && hs[j].master <= bigfd
      invariant forall x :: x in fd ==> exists j :: 0 <= j < i && hs[j].master == x
      invariant bigfd >= INVALID_SOCKET && (bigfd > INVALID_SOCKET ==> bigfd in fd)
    {
      assert soap_handles[..count][i] == hs[i];
      if soap_handles[i].master != INVALID_SOCKET {
        fd := fd + {soap_handles[i].master};
        if soap_handles[i].master > bigfd {
          bigfd := soap_handles[i].master;
        }
      } else {
        return;
      }
      i := i + 1;
    }
    asked := Some(Question(bigfd + 1, fd));
    var r, attempt := -1, 0;
    while r < 0
      invariant 0 <= attempt <= |outcomes|
      invariant r < 0 ==> Settled(outcomes) == Settled(outcomes[attempt..])
      invariant r >= 0 ==> IsFirstReady(null, hs, Settled(outcomes))
      invariant result == null
      decreases r < 0, |outcomes| - attempt
    {
      var o := outcomes[attempt];
      attempt := attempt + 1;
      match o {
        case Failed => r := -1;
        case TimedOut => r := 0;
        case Ready(fds) => r := 1;
      }
      if r > 0 {
        i := 0;
        while i < count
          invariant 0 <= i <= count
          invariant forall j :: 0 <= j < i ==> hs[j].master !in o.fds
        {
          assert soap_handles[..count][i] == hs[i];
          if soap_handles[i].master != INVALID_SOCKET {
            if soap_handles[i].master in o.fds {
              result := soap_handles[i];
              assert IsFirstAt(hs, i, o.fds);
              return;
            }
          }
          i := i + 1;
        }
      }
    }
  }

  method StoreServices(services: ServiceList, soap_set: array<Soap?>) returns (index: nat)
    requires services.Valid() && soap_set.Length >= |services.items|
    modifies soap_set
    ensures index == |services.items| && soap_set[..index] == ServiceHandles(services.items)
  {
    var service_list_size := services.CountServices();
    index := 0;
    while index < service_list_size
      invariant index <= service_list_size
      invariant soap_set[..index] == ServiceHandles(services.items)[..index]
    {
      soap_set[index] := services.GetService(index);
      index := index + 1;
    }
  }

  /** The body of the loop over the devices. */
  method StoreDevice(rem_device: RemoteDevice, soap_set: array<Soap?>, index: nat) returns (next: nat)
    requires index + 2 <= soap_set.Length
    modifies soap_set
    ensures next <= index + 2 && soap_set[..next] == old(soap_set[..index]) + HandlesOf(rem_device)
  {
    next := index;
    if rem_device.dis_mca != null {
      soap_set[next] := rem_device.dis_mca;
      next := next + 1;
    }
    if rem_device.hosting_handle != null {
      soap_set[next] := rem_device.hosting_handle;
      next := next + 1;
    }
  }

  lemma OneMoreDevice(first: seq<Soap?>, ds: seq<RemoteDevice>, j: nat)
    requires j < |ds|
    ensures first + DeviceHandles(ds[..j + 1]) == first + DeviceHandles(ds[..j]) + HandlesOf(ds[j])
  {
    assert ds[..j + 1][..j] == ds[..j];
    Assoc(first, DeviceHandles(ds[..j]), HandlesOf(ds[j]));
  }

  method StoreDevices(head: Node<RemoteDevice>, ghost ns: seq<Node<RemoteDevice>>, ghost ds: seq<RemoteDevice>,
                      soap_set: array<Soap?>, start: nat) returns (index: nat)
    requires DeviceList(head, ns, ds) && start + 2 * |ds| <= soap_set.Length
    modifies soap_set
    ensures index <= start + 2 * |ds| && soap_set[..index] == old(soap_set[..start]) + DeviceHandles(ds)
  {
    index := start;
    ghost var j := 0;
    ghost var first: seq<Soap?> := soap_set[..start];
    ghost var kept: seq<Soap?> := first;
    RingAt(head, ns, -1);
    var pos := head.next;
    while pos != head
      invariant 0 <= j <= |ds| && pos == At(head, ns, j)
      invariant index <= start + 2 * j
      invariant soap_set[..index] == kept && kept == first + DeviceHandles(ds[..j])
      decreases |ds| - j
    {
      OneMoreDevice(first, ds, j);
      kept := kept + HandlesOf(ds[j]);
      index := StoreDevice(pos.owner.value, soap_set, index);
      RingAt(head, ns, j);
      pos := pos.next;
      j := j + 1;
    }
    assert ds[..j] == ds;
  }

  /** proxy_structures_maccept up to the call of accept: the array has two slots a device, and is never overrun. */
  method Gather(services: ServiceList, head: Node<RemoteDevice>, ghost ns: seq<Node<RemoteDevice>>, ghost ds: seq<RemoteDevice>)
      returns (soap_set: array<Soap?>, index: nat)
    requires services.Valid() && DeviceList(head, ns, ds)
    ensures fresh(soap_set) && index <= soap_set.Length == |services.items| + 2 * |ds|
    ensures soap_set[..index] == ServiceHandles(services.items) + DeviceHandles(ds)
    ensures Gathered(soap_set[..index], services.items, ds)
  {
    var service_list_size := services.CountServices();
    var devices := CountDevices(head, ns);
    soap_set := new Soap?[service_list_size + devices * 2](_ => null);
    index := StoreServices(services, soap_set);
    index := StoreDevices(head, ns, ds, soap_set, index);
    GatheredIs(soap_set[..index], services.items, ds);
  }

  /** device_proxy_list_count_devices */
  method CountDevices(head: Node<RemoteDevice>, ghost ns: seq<Node<RemoteDevice>>) returns (device_count: nat)
    requires Ring(head, ns)
    ensures device_count == |ns|
  {
    RingAt(head, ns, -1);
    var pos := head.next;
    device_count := 0;
    while pos != head
      invariant device_count <= |ns| && pos == At(head, ns, device_count)
      decreases |ns| - device_count
    {
      RingAt(head, ns, device_count);
      pos := pos.next;
      device_count := device_count + 1;
    }
  }

  /** proxy_structures_maccept: the first ready handle among the services and then each device's, in list order. */
  method Maccept(services: ServiceList, head: Node<RemoteDevice>, ghost ns: seq<Node<RemoteDevice>>, ghost ds: seq<RemoteDevice>,
                 outcomes: seq<Outcome>)
      returns (result: Soap?)
    requires services.Valid() && DeviceList(head, ns, ds) && Settled(outcomes) != Failed
    ensures var hs := ServiceHandles(services.items) + DeviceHandles(ds);
            if AllValid(hs) then IsFirstReady(result, hs, Settled(outcomes)) else result == null
    ensures Answers(result, services.items, ds, Settled(outcomes))
  {
    var soap_set, index := Gather(services, head, ns, ds);
    var asked;
    result, asked := Accept(index, soap_set, outcomes, ServiceHandles(services.items) + DeviceHandles(ds));
    GatheredIs(ServiceHandles(services.items) + DeviceHandles(ds), services.items, ds);
    FirstAnswers(result, ServiceHandles(services.items) + DeviceHandles(ds), services.items, ds, Settled(outcomes));
  }
}
