/** The gateway's two threads, step by step: the main loop, which serves the devices on the list, and the
    discovery worker, which adds and unregisters them. They share the device list, its mutex, the condition
    the main loop waits on while there is no device, and the running flag. */
module GatewayThreads {
  import opened Options

  /** A remote_device, named by when it was allocated. */
  type Dev = nat

  /** What a list cursor points to. */
  datatype Ptr = Head | At(dev: Dev)

  // ---------------------------------------------------------------- states

  /** Where the main loop stands. The names say what it does next. */
  datatype MainPc =
    | MainLoop                                               // while (gateway_running())
    | MainLock                                               // dpws_device_check_handles: gateway_mutex_lock
    | TestEmpty                                              // while (device_proxy_list_empty() ...
    | TestRunning                                            // ... && gateway_running())
    | Wait                                                   // gateway_wait: release the mutex and block
    | Blocked                                                // inside pthread_cond_wait
    | Woken                                                  // inside pthread_cond_wait, to take the mutex again
    | CollectStart                                           // proxy_structures_maccept: ws4d_list_foreach
    | Collect(pos: Ptr, next: Ptr, seen: seq<Dev>)
    | Select(handles: seq<Dev>)                              // proxy_structures_accept
    | Serve(handle: Dev)                                     // dpws_mserve, soap_end
    | MainUnlock
    | CheckLock                                              // device_proxy_list_check_subscriptions
    | CheckStart
    | Check(pos: Ptr, next: Ptr, seen: seq<Dev>)
    | CheckUnlock
    | Join                                                   // discovery_worker_wait
    | Exited

  /** Where dpws_device_unregister returns to. */
  datatype Return = ToScan(left: nat) | ToClean(next: Ptr)

  /** Where the worker stands. `left` is how many descriptors its for loop has yet to look at. */
  datatype WorkerPc =
    | Top                                                    // while (!shutdownFlag_discovery)
    | Scan(left: nat)
    | AddLock(dev: Dev, left: nat)                           // device_proxy_list_add_device
    | AddInsert(dev: Dev, left: nat)
    | AddBroadcast(left: nat)
    | AddUnlock(left: nat)
    | Notify(dev: Dev, ret: Return)                          // dpws_device_unregister
    | DelLock(dev: Dev, ret: Return)                         // device_proxy_list_del_device
    | DelRemove(dev: Dev, ret: Return)
    | DelUnlock(dev: Dev, ret: Return)
    | Free(dev: Dev, ret: Return)                            // ... device_proxy_item_free
    | CleanStart                                             // device_proxy_list_cleanup
    | Clean(pos: Ptr, next: Ptr)
    | FinalLock
    | FinalBroadcast
    | FinalUnlock
    | Finished

  datatype Thread = TheMain | TheWorker

  datatype State = State(list: seq<Dev>, made: nat, freed: set<Dev>, running: bool, mutex: Option<Thread>,
                         main: MainPc, worker: WorkerPc)

  const START := State([], 0, {}, true, None, MainLoop, Top)

  // ---------------------------------------------------------------- the list

  /** The next pointer. A node taken off the list points to itself. */
  function NextOf(list: seq<Dev>, p: Ptr): Ptr {
    match p
    case Head => PtrAt(list, 0)
    case At(d) => if d in list then PtrAt(list, IndexOf(list, d) + 1) else p
  }

  function PtrAt(list: seq<Dev>, i: nat): Ptr {
    if i < |list| then At(list[i]) else Head
  }

  function IndexOf(list: seq<Dev>, d: Dev): (i: nat)
    requires d in list
    ensures i < |list| && list[i] == d
  {
    if list[0] == d then 0 else 1 + IndexOf(list[1..], d)
  }

  function Removed(list: seq<Dev>, d: Dev): seq<Dev> {
    if d in list then list[..IndexOf(list, d)] + list[IndexOf(list, d) + 1..] else list
  }

  function Pointee(p: Ptr): set<Dev> {
    if p.At? then {p.dev} else {}
  }

  // ---------------------------------------------------------------- steps

  /** What the environment decides: which device select finds ready (if any), what the worker's descriptors bring. */
  datatype Event =
    | Nothing
    | Hello                                                  // a node connects and its device can be built
    | Broken(dev: Dev)                                       // a node's connection fails
    | Descriptors(n: nat)                                    // how many descriptors the worker's for loop covers

  datatype Action =
    | MainGoes(ready: nat)                                   // select: the index of the first ready handle
    | WorkerGoes(event: Event)
    | Interrupt                                              // service_exit: the signal handler
    | SpuriousWakeUp

  function Lock(s: State, t: Thread): Option<State> {
    if s.mutex == None then Some(s.(mutex := Some(t))) else None
  }

  /** None: the thread is blocked (or has ended). */
  function MainStep(s: State, ready: nat): Option<State> {
    match s.main
    case MainLoop => Some(s.(main := if s.running then MainLock else Join))
    case MainLock => Lock(s.(main := TestEmpty), TheMain)
    case TestEmpty => Some(s.(main := if s.list == [] then TestRunning else CollectStart))
    case TestRunning => Some(s.(main := if s.running then Wait else CollectStart))
    case Wait => Some(s.(main := Blocked, mutex := None))
    case Blocked => None
    case Woken => Lock(s.(main := TestEmpty), TheMain)
    case CollectStart =>
      var pos := NextOf(s.list, Head);
      Some(s.(main := Collect(pos, NextOf(s.list, pos), [])))
    case Collect(pos, next, seen) =>
      if pos == Head then Some(s.(main := Select(seen)))
      else Some(s.(main := Collect(next, NextOf(s.list, next), seen + [pos.dev])))
    case Select(handles) => Some(s.(main := if ready < |handles| then Serve(handles[ready]) else MainUnlock))
    case Serve(_) => Some(s.(main := MainUnlock))
    case MainUnlock => Some(s.(main := CheckLock, mutex := None))
    case CheckLock => Lock(s.(main := CheckStart), TheMain)
    case CheckStart =>
      var pos := NextOf(s.list, Head);
      Some(s.(main := Check(pos, NextOf(s.list, pos), [])))
    case Check(pos, next, seen) =>
      if pos == Head then Some(s.(main := CheckUnlock))
      else Some(s.(main := Check(next, NextOf(s.list, next), seen + [pos.dev])))
    case CheckUnlock => Some(s.(main := MainLoop, mutex := None))
    case Join => if s.worker == Finished then Some(s.(main := Exited)) else None
    case Exited => None
  }

  /** pthread_cond_broadcast */
  function Broadcast(m: MainPc): MainPc {
    if m == Blocked then Woken else m
  }

  function WorkerStep(s: State, e: Event): Option<State> {
    match s.worker
    case Top => if s.running then (if e.Descriptors? then Some(s.(worker := Scan(e.n))) else None) else Some(s.(worker := CleanStart))
    case Scan(left) =>
      if left == 0 then Some(s.(worker := Top))
      else (match e
        case Nothing => Some(s.(worker := Scan(left - 1)))
        case Hello => Some(s.(made := s.made + 1, worker := AddLock(s.made, left - 1)))
        case Broken(d) => if d in s.list then Some(s.(worker := Notify(d, ToScan(left - 1)))) else None
        case Descriptors(_) => None)
    case AddLock(d, left) => Lock(s.(worker := AddInsert(d, left)), TheWorker)
    case AddInsert(d, left) => Some(s.(list := s.list + [d], worker := AddBroadcast(left)))
    case AddBroadcast(left) => Some(s.(main := Broadcast(s.main), worker := AddUnlock(left)))
    case AddUnlock(left) => Some(s.(worker := Scan(left), mutex := None))
    case Notify(d, ret) => Some(s.(worker := DelLock(d, ret)))
    case DelLock(d, ret) => Lock(s.(worker := DelRemove(d, ret)), TheWorker)
    case DelRemove(d, ret) => Some(s.(list := Removed(s.list, d), worker := DelUnlock(d, ret)))
    case DelUnlock(d, ret) => Some(s.(worker := Free(d, ret), mutex := None))
    case Free(d, ret) =>
      var back := match ret
        case ToScan(left) => Scan(left)
        case ToClean(next) => Clean(next, NextOf(s.list, next));
      Some(s.(freed := s.freed + {d}, worker := back))
    case CleanStart =>
      var pos := NextOf(s.list, Head);
      Some(s.(worker := Clean(pos, NextOf(s.list, pos))))
    case Clean(pos, next) => Some(s.(worker := if pos == Head then FinalLock else Notify(pos.dev, ToClean(next))))
    case FinalLock => Lock(s.(worker := FinalBroadcast), TheWorker)
    case FinalBroadcast => Some(s.(main := Broadcast(s.main), worker := FinalUnlock))
    case FinalUnlock => Some(s.(worker := Finished, mutex := None))
    case Finished => None
  }

  function Step(s: State, a: Action): Option<State> {
    match a
    case MainGoes(ready) => MainStep(s, ready)
    case WorkerGoes(e) => WorkerStep(s, e)
    case Interrupt => if s.running then Some(s.(running := false)) else None
    case SpuriousWakeUp => if s.main == Blocked then Some(s.(main := Woken)) else None
  }

  /** The state after a schedule, if every step in it could be taken. */
  function After(s: State, schedule: seq<Action>): Option<State> {
    if schedule == [] then Some(s)
    else
      var before := After(s, schedule[..|schedule| - 1]);
      if before == None then None else Step(before.value, schedule[|schedule| - 1])
  }

  /** What ws4d_list_check of the head reads: the first device and the last. */
  function Ends(list: seq<Dev>): set<Dev> {
    if list == [] then {} else {list[0], list[|list| - 1]}
  }

  /** The devices whose memory the main loop's next step reads: what its cursors point to, what it serves. */
  function MainTouches(s: State): set<Dev> {
    match s.main
    case TestEmpty => Ends(s.list)
    case CollectStart => Pointee(NextOf(s.list, Head))
    case CheckStart => Pointee(NextOf(s.list, Head))
    case Collect(pos, next, _) => Pointee(pos) + if pos == Head then {} else Pointee(next)
    case Check(pos, next, _) => Pointee(pos) + if pos == Head then {} else Pointee(next)
    case Select(handles) => set d | d in handles
    case Serve(d) => {d}
    case _ => {}
  }

  /** And the worker's: when it changes the list, all that is on it. */
  function WorkerTouches(s: State): set<Dev> {
    match s.worker
    case AddLock(d, _) => {d}
    case AddInsert(d, _) => {d} + set x | x in s.list
    case Notify(d, _) => {d}
    case DelLock(d, _) => {d}
    case DelRemove(d, _) => {d} + set x | x in s.list
    case DelUnlock(d, _) => {d}
    case Free(d, ret) => {d} + if ret.ToClean? then Pointee(ret.next) else {}
    case Scan(_) => set x | x in s.list
    case CleanStart => Pointee(NextOf(s.list, Head))
    case Clean(pos, next) => Pointee(pos)
    case _ => {}
  }

  // ---------------------------------------------------------------- the invariant

  predicate MainHolds(m: MainPc) {
    m in {TestEmpty, TestRunning, Wait, CollectStart, MainUnlock, CheckStart, CheckUnlock}
    || m.Collect? || m.Select? || m.Serve? || m.Check?
  }

  predicate WorkerHolds(w: WorkerPc) {
    w.AddInsert? || w.AddBroadcast? || w.AddUnlock? || w.DelRemove? || w.DelUnlock? || w.FinalBroadcast? || w.FinalUnlock?
  }

  predicate Distinct(list: seq<Dev>) {
    forall i, j :: 0 <= i < j < |list| ==> list[i] != list[j]
  }

  /** A walk over a list that does not change: what it has seen is a prefix, and its cursors follow. */
  predicate Walking(list: seq<Dev>, pos: Ptr, next: Ptr, seen: seq<Dev>) {
    && |seen| <= |list| && seen == list[..|seen|]
    && pos == PtrAt(list, |seen|)
    && (pos != Head ==> next == PtrAt(list, |seen| + 1))
  }

  /** Cleanup is under way. */
  predicate Leaving(w: WorkerPc) {
    match w
    case CleanStart => true
    case Clean(_, _) => true
    case Notify(_, ret) => ret.ToClean?
    case DelLock(_, ret) => ret.ToClean?
    case DelRemove(_, ret) => ret.ToClean?
    case DelUnlock(_, ret) => ret.ToClean?
    case Free(_, ret) => ret.ToClean?
    case _ => PastCleanup(w)
  }

  predicate PastCleanup(w: WorkerPc) {
    w in {FinalLock, FinalBroadcast, FinalUnlock, Finished}
  }

  predicate Exclusion(s: State) {
    && (s.mutex == Some(TheMain) <==> MainHolds(s.main))
    && (s.mutex == Some(TheWorker) <==> WorkerHolds(s.worker))
  }

  predicate MainInv(s: State) {
    match s.main
    case Wait => s.list == [] && s.worker != Finished
    case TestRunning => s.list == []
    case CollectStart => s.list != [] || !s.running
    case Collect(pos, next, seen) => Walking(s.list, pos, next, seen) && (s.list != [] || !s.running)
    case Check(pos, next, seen) => Walking(s.list, pos, next, seen)
    case Select(handles) => handles == s.list && (s.list != [] || !s.running)
    case Serve(d) => d in s.list
    case Blocked => (s.list == [] || s.worker.AddBroadcast?) && s.worker != FinalUnlock && s.worker != Finished
    case Join => !s.running
    case Exited => s.worker == Finished
    case _ => true
  }

  predicate WorkerInv(s: State) {
    && (Leaving(s.worker) ==> !s.running)
    && (PastCleanup(s.worker) ==> s.list == [])
    && (match s.worker
        case AddLock(d, _) => d < s.made && d !in s.list && d !in s.freed
        case AddInsert(d, _) => d < s.made && d !in s.list && d !in s.freed
        case Notify(d, ret) => OnList(s, d, ret)
        case DelLock(d, ret) => OnList(s, d, ret)
        case DelRemove(d, ret) => OnList(s, d, ret)
        case DelUnlock(d, ret) => OffList(s, d, ret)
        case Free(d, ret) => OffList(s, d, ret)
        case Clean(pos, next) => pos == PtrAt(s.list, 0) && (pos != Head ==> next == PtrAt(s.list, 1))
        case _ => true)
  }

  predicate OnList(s: State, d: Dev, ret: Return) {
    d in s.list && (ret.ToClean? ==> s.list[0] == d && ret.next == PtrAt(s.list, 1))
  }

  predicate OffList(s: State, d: Dev, ret: Return) {
    d < s.made && d !in s.list && d !in s.freed && (ret.ToClean? ==> ret.next == PtrAt(s.list, 0))
  }

  /** The device the worker has built but not yet put on the list, or taken off but not yet freed. */
  function Pending(w: WorkerPc): set<Dev> {
    match w
    case AddLock(d, _) => {d}
    case AddInsert(d, _) => {d}
    case DelUnlock(d, _) => {d}
    case Free(d, _) => {d}
    case _ => {}
  }

  /** Every device ever made is in exactly one place: on the list, in the worker's hands, or freed. */
  ghost predicate Accounted(s: State) {
    && Distinct(s.list)
    && (forall d :: d in s.list ==> d < s.made && d !in s.freed)
    && (forall d :: d in s.freed ==> d < s.made)
    && (forall d: Dev :: d < s.made ==> d in s.list || d in s.freed || d in Pending(s.worker))
  }

  ghost predicate Inv(s: State) {
    Accounted(s) && Exclusion(s) && MainInv(s) && WorkerInv(s)
  }

  lemma NextAt(list: seq<Dev>, i: nat)
    requires Distinct(list) && i < |list|
    ensures NextOf(list, PtrAt(list, i)) == PtrAt(list, i + 1)
  {
    assert IndexOf(list, list[i]) == i;
  }

  /** Where an entry of the list without entry k comes from. */
  lemma WithoutEntry(list: seq<Dev>, k: nat, r: seq<Dev>, i: nat)
    requires k < |list| && r == list[..k] + list[k + 1..] && i < |r|
    ensures r[i] == list[if i < k then i else i + 1]
  {
  }

  lemma WithoutDistinct(list: seq<Dev>, k: nat, r: seq<Dev>)
    requires Distinct(list) && k < |list| && r == list[..k] + list[k + 1..]
    ensures Distinct(r) && list[k] !in r
  {
    forall i | 0 <= i < |r|
      ensures r[i] != list[k] && forall j :: i < j < |r| ==> r[i] != r[j]
    {
      WithoutEntry(list, k, r, i);
      forall j | i < j < |r|
        ensures r[i] != r[j]
      {
        WithoutEntry(list, k, r, j);
      }
    }
  }

  lemma WithoutMembers(list: seq<Dev>, k: nat, r: seq<Dev>)
    requires k < |list| && r == list[..k] + list[k + 1..]
    ensures forall x :: x in r ==> x in list
    ensures forall x :: x in list && x != list[k] ==> x in r
  {
    forall x | x in list && x != list[k]
      ensures x in r
    {
      var i :| 0 <= i < |list| && list[i] == x;
      WithoutEntry(list, k, r, if i < k then i else i - 1);
    }
  }

  lemma RemovedIs(list: seq<Dev>, d: Dev)
    requires Distinct(list) && d in list
    ensures Distinct(Removed(list, d)) && d !in Removed(list, d)
    ensures forall x :: x in list && x != d ==> x in Removed(list, d)
    ensures forall x :: x in Removed(list, d) ==> x in list
    ensures d == list[0] ==> Removed(list, d) == list[1..]
  {
    WithoutDistinct(list, IndexOf(list, d), Removed(list, d));
    WithoutMembers(list, IndexOf(list, d), Removed(list, d));
  }

  lemma WalkStep(list: seq<Dev>, pos: Ptr, next: Ptr, seen: seq<Dev>)
    requires Distinct(list) && Walking(list, pos, next, seen) && pos != Head
    ensures Walking(list, next, NextOf(list, next), seen + [pos.dev]) && pos.dev in list
  {
    var i := |seen|;
    assert list[..i] + [list[i]] == list[..i + 1];
    if i + 1 < |list| {
      NextAt(list, i + 1);
    }
  }

  lemma WalkStart(list: seq<Dev>)
    requires Distinct(list)
    ensures Walking(list, NextOf(list, Head), NextOf(list, NextOf(list, Head)), [])
  {
    if list != [] {
      NextAt(list, 0);
    }
  }

  lemma WalkEnd(list: seq<Dev>, next: Ptr, seen: seq<Dev>)
    requires Walking(list, Head, next, seen)
    ensures seen == list
  {
  }

  /** The main loop changes nothing but where it stands and, when it gets the mutex or gives it back, the mutex. */
  lemma MainChanges(s: State, ready: nat)
    requires Exclusion(s) && MainStep(s, ready).Some?
    ensures var t := MainStep(s, ready).value;
            && t == s.(main := t.main, mutex := t.mutex) && Exclusion(t)
            && (t.mutex == s.mutex || MainHolds(s.main) || MainHolds(t.main))
  {
  }

  lemma WalksKeepInv(s: State, ready: nat)
    requires Inv(s) && MainStep(s, ready).Some? && (s.main.CollectStart? || s.main.CheckStart? || s.main.Collect? || s.main.Check?)
    ensures MainInv(MainStep(s, ready).value)
  {
    match s.main
    case CollectStart => WalkStart(s.list);
    case CheckStart => WalkStart(s.list);
    case Collect(pos, next, seen) => if pos != Head { WalkStep(s.list, pos, next, seen); } else { WalkEnd(s.list, next, seen); }
    case Check(pos, next, seen) => if pos != Head { WalkStep(s.list, pos, next, seen); }
  }

  lemma MainKeepsInv(s: State, ready: nat)
    requires Inv(s) && MainStep(s, ready).Some?
    ensures Inv(MainStep(s, ready).value)
  {
    MainChanges(s, ready);
    if s.main.CollectStart? || s.main.CheckStart? || s.main.Collect? || s.main.Check? {
      WalksKeepInv(s, ready);
    }
  }

  /** The steps that move a device: from the worker's hands to the list, and from there to the freed ones. */
  predicate MovesDevice(w: WorkerPc) {
    w.Scan? || w.AddInsert? || w.DelRemove? || w.Free?
  }

  lemma OthersMoveNone(s: State, e: Event)
    requires Accounted(s) && !MovesDevice(s.worker) && WorkerStep(s, e).Some?
    ensures Accounted(WorkerStep(s, e).value)
  {
    var t := WorkerStep(s, e).value;
    assert t.list == s.list && t.made == s.made && t.freed == s.freed && Pending(s.worker) <= Pending(t.worker);
  }

  lemma HelloKeepsAccount(s: State, e: Event)
    requires Accounted(s) && s.worker.Scan? && WorkerStep(s, e).Some?
    ensures Accounted(WorkerStep(s, e).value)
  {
  }

  lemma InsertKeepsAccount(s: State, e: Event)
    requires Accounted(s) && WorkerInv(s) && s.worker.AddInsert? && WorkerStep(s, e).Some?
    ensures Accounted(WorkerStep(s, e).value)
  {
    var d, list := s.worker.dev, s.list + [s.worker.dev];
    assert forall i :: 0 <= i < |s.list| ==> list[i] == s.list[i] && list[i] != d;
    assert list[|s.list|] == d;
  }

  lemma RemoveKeepsAccount(s: State, e: Event)
    requires Accounted(s) && WorkerInv(s) && s.worker.DelRemove? && WorkerStep(s, e).Some?
    ensures Accounted(WorkerStep(s, e).value)
  {
    RemovedIs(s.list, s.worker.dev);
  }

  lemma FreeKeepsAccount(s: State, e: Event)
    requires Accounted(s) && WorkerInv(s) && s.worker.Free? && WorkerStep(s, e).Some?
    ensures Accounted(WorkerStep(s, e).value)
  {
  }

  lemma WorkerKeepsAccount(s: State, e: Event)
    requires Accounted(s) && WorkerInv(s) && WorkerStep(s, e).Some?
    ensures Accounted(WorkerStep(s, e).value)
  {
    if !MovesDevice(s.worker) {
      OthersMoveNone(s, e);
    } else if s.worker.Scan? {
      HelloKeepsAccount(s, e);
    } else if s.worker.AddInsert? {
      InsertKeepsAccount(s, e);
    } else if s.worker.DelRemove? {
      RemoveKeepsAccount(s, e);
    } else {
      FreeKeepsAccount(s, e);
    }
  }

  lemma UnregisterKeepsWorker(s: State, e: Event)
    requires Accounted(s) && WorkerInv(s) && WorkerStep(s, e).Some?
    requires s.worker.Notify? || s.worker.DelLock? || s.worker.DelRemove? || s.worker.DelUnlock?
    ensures WorkerInv(WorkerStep(s, e).value)
  {
    if s.worker.DelRemove? {
      RemovedIs(s.list, s.worker.dev);
    }
  }

  lemma CleanupKeepsWorker(s: State, e: Event)
    requires Accounted(s) && WorkerInv(s) && WorkerStep(s, e).Some?
    requires s.worker.Free? || s.worker.CleanStart? || s.worker.Clean?
    ensures WorkerInv(WorkerStep(s, e).value)
  {
    WalkStart(s.list);
  }

  lemma WorkerKeepsWorker(s: State, e: Event)
    requires Accounted(s) && WorkerInv(s) && WorkerStep(s, e).Some?
    ensures WorkerInv(WorkerStep(s, e).value)
  {
    match s.worker
    case Notify(_, _) => UnregisterKeepsWorker(s, e);
    case DelLock(_, _) => UnregisterKeepsWorker(s, e);
    case DelRemove(_, _) => UnregisterKeepsWorker(s, e);
    case DelUnlock(_, _) => UnregisterKeepsWorker(s, e);
    case Free(_, _) => CleanupKeepsWorker(s, e);
    case CleanStart => CleanupKeepsWorker(s, e);
    case Clean(_, _) => CleanupKeepsWorker(s, e);
    case _ =>
  }

  lemma WorkerKeepsExclusion(s: State, e: Event)
    requires Exclusion(s) && WorkerStep(s, e).Some?
    ensures Exclusion(WorkerStep(s, e).value)
  {
  }

  /** The worker moves the main loop by its broadcasts only, and touches the list only with the mutex. */
  lemma WorkerChanges(s: State, e: Event)
    requires Exclusion(s) && WorkerStep(s, e).Some?
    ensures var t := WorkerStep(s, e).value;
            && Exclusion(t) && (t.main == s.main || s.worker.AddBroadcast? || s.worker.FinalBroadcast?)
            && (t.list == s.list || s.mutex == Some(TheWorker)) && t.running == s.running
  {
    WorkerKeepsExclusion(s, e);
  }

  lemma WorkerKeepsMain(s: State, e: Event)
    requires Inv(s) && WorkerStep(s, e).Some?
    ensures MainInv(WorkerStep(s, e).value)
  {
    WorkerChanges(s, e);
  }

  lemma WorkerKeepsInv(s: State, e: Event)
    requires Inv(s) && WorkerStep(s, e).Some?
    ensures Inv(WorkerStep(s, e).value)
  {
    WorkerKeepsAccount(s, e);
    WorkerKeepsWorker(s, e);
    WorkerChanges(s, e);
    WorkerKeepsMain(s, e);
  }

  lemma StepKeepsInv(s: State, a: Action)
    requires Inv(s) && Step(s, a).Some?
    ensures Inv(Step(s, a).value)
  {
    match a
    case MainGoes(ready) => MainKeepsInv(s, ready);
    case WorkerGoes(e) => WorkerKeepsInv(s, e);
    case _ =>
  }

  lemma {:induction false} Reachable(schedule: seq<Action>)
    requires After(START, schedule).Some?
    ensures Inv(After(START, schedule).value)
  {
    if schedule != [] {
      Reachable(schedule[..|schedule| - 1]);
      StepKeepsInv(After(START, schedule[..|schedule| - 1]).value, schedule[|schedule| - 1]);
    }
  }

  // ---------------------------------------------------------------- safety

  /** Under every schedule: no thread touches a freed device (nor frees one twice), the list is written only
      while the main loop does not read it, and select waits on exactly the devices of the list. */
  lemma NoFreedDeviceTouched(schedule: seq<Action>)
    requires After(START, schedule).Some?
    ensures var s := After(START, schedule).value;
            && MainTouches(s) !! s.freed && WorkerTouches(s) !! s.freed
            && (MainTouches(s) != {} ==> s.mutex == Some(TheMain))
            && (s.worker.AddInsert? || s.worker.DelRemove? ==> s.mutex == Some(TheWorker))
            && (s.main.Select? ==> s.main.handles == s.list)
  {
    Reachable(schedule);
    var s := After(START, schedule).value;
    WalkStart(s.list);
    if s.list != [] {
      NextAt(s.list, 0);
    }
  }

  /** No lost wake-up: under every schedule, a blocked main loop and a free mutex mean an empty list, and
      once cleanup has broadcast the main loop is not blocked, nor will it be. */
  lemma NoLostWakeUp(schedule: seq<Action>)
    requires After(START, schedule).Some?
    ensures var s := After(START, schedule).value;
            && (s.main == Blocked && s.mutex == None ==> s.list == [])
            && (s.worker == FinalUnlock || s.worker == Finished ==> s.main != Blocked && s.main != Wait)
  {
    Reachable(schedule);
  }

  // ---------------------------------------------------------------- shutdown

  /** Both threads have ended. */
  predicate Over(s: State) {
    s.main == Exited && s.worker == Finished
  }

  lemma Holder(s: State)
    requires Exclusion(s)
    ensures s.mutex == None || MainHolds(s.main) || WorkerHolds(s.worker)
  {
    if s.mutex.Some? {
      match s.mutex.value
      case TheMain =>
      case TheWorker =>
    }
  }

  /** Some thread can go, unless both have ended: there is no deadlock. */
  lemma NotStuck(s: State)
    requires Inv(s)
    ensures Over(s) || Step(s, WorkerGoes(Descriptors(0))).Some? || Step(s, WorkerGoes(Nothing)).Some? || Step(s, MainGoes(0)).Some?
  {
    Holder(s);
  }

  /** At the end nothing is left: every device ever made has been freed. */
  lemma NothingLeft(s: State)
    requires Inv(s) && Over(s)
    ensures s.list == [] && s.mutex == None && forall d: Dev :: d in s.freed <==> d < s.made
  {
    Holder(s);
    assert forall d: Dev :: d < s.made ==> d in s.list || d in s.freed || d in Pending(s.worker);
  }

  /** How far the main loop is from its end, once the flag is cleared. */
  function MainRank(m: MainPc): nat {
    match m
    case MainLock => 17 case Wait => 16 case Blocked => 15 case Woken => 14 case TestEmpty => 13 case TestRunning => 12
    case CollectStart => 11 case Collect(_, _, _) => 10 case Select(_) => 9 case Serve(_) => 8 case MainUnlock => 7
    case CheckLock => 6 case CheckStart => 5 case Check(_, _, _) => 4 case CheckUnlock => 3
    case MainLoop => 2 case Join => 1 case Exited => 0
  }

  /** How many entries its walk has yet to see. */
  function WalkRank(s: State): nat {
    match s.main
    case Collect(_, _, seen) => if |seen| <= |s.list| then |s.list| - |seen| else 0
    case Check(_, _, seen) => if |seen| <= |s.list| then |s.list| - |seen| else 0
    case _ => 0
  }

  /** How many steps the worker has yet to take at most. */
  function WorkerRank(s: State): nat {
    var n := 7 * |s.list|;
    match s.worker
    case Finished => 0 case FinalUnlock => 1 case FinalBroadcast => 2 case FinalLock => 3
    case Clean(_, _) => n + 4
    case CleanStart => n + 5
    case Top => n + 6
    case Scan(left) => n + 7 + 20 * left
    case AddLock(_, left) => n + 18 + 20 * left
    case AddInsert(_, left) => n + 17 + 20 * left
    case AddBroadcast(left) => n + 9 + 20 * left
    case AddUnlock(left) => n + 8 + 20 * left
    case Notify(_, ret) => n + Back(ret) - 1
    case DelLock(_, ret) => n + Back(ret) - 2
    case DelRemove(_, ret) => n + Back(ret) - 3
    case DelUnlock(_, ret) => n + Back(ret) + 3
    case Free(_, ret) => n + Back(ret) + 2
  }

  function Back(ret: Return): int {
    match ret
    case ToScan(left) => 17 + 20 * left
    case ToClean(_) => 4
  }

  lemma MainDescends(s: State, ready: nat)
    requires Inv(s) && !s.running && MainStep(s, ready).Some?
    ensures var t := MainStep(s, ready).value;
            MainRank(t.main) < MainRank(s.main) || (MainRank(t.main) == MainRank(s.main) && WalkRank(t) < WalkRank(s))
  {
  }

  lemma UnregisterNearer(s: State, e: Event)
    requires Inv(s) && WorkerStep(s, e).Some?
    requires s.worker.Notify? || s.worker.DelLock? || s.worker.DelRemove? || s.worker.DelUnlock? || s.worker.Free?
    ensures WorkerRank(WorkerStep(s, e).value) < WorkerRank(s)
  {
    if s.worker.DelRemove? {
      assert s.worker.dev in s.list;
    }
  }

  lemma ScanNearer(s: State, e: Event)
    requires !s.running && WorkerStep(s, e).Some?
    requires s.worker.Scan? || s.worker.AddLock? || s.worker.AddInsert? || s.worker.AddBroadcast? || s.worker.AddUnlock?
    ensures WorkerRank(WorkerStep(s, e).value) < WorkerRank(s)
  {
  }

  /** A step of the worker takes it nearer to its end. */
  lemma WorkerNearer(s: State, e: Event)
    requires Inv(s) && !s.running && WorkerStep(s, e).Some?
    ensures WorkerRank(WorkerStep(s, e).value) < WorkerRank(s)
  {
    if s.worker.Notify? || s.worker.DelLock? || s.worker.DelRemove? || s.worker.DelUnlock? || s.worker.Free? {
      UnregisterNearer(s, e);
    } else if s.worker.Scan? || s.worker.AddLock? || s.worker.AddInsert? || s.worker.AddBroadcast? || s.worker.AddUnlock? {
      ScanNearer(s, e);
    }
  }

  /** It leaves the main loop where it stands, or wakes it. */
  lemma WorkerLetsMainBe(s: State, e: Event)
    requires Inv(s) && WorkerStep(s, e).Some?
    ensures var t := WorkerStep(s, e).value;
            MainRank(t.main) < MainRank(s.main) || (t.main == s.main && WalkRank(t) == WalkRank(s))
  {
    WorkerChanges(s, e);
  }

  lemma WorkerDescends(s: State, e: Event)
    requires Inv(s) && !s.running && WorkerStep(s, e).Some?
    ensures var t := WorkerStep(s, e).value;
            MainRank(t.main) < MainRank(s.main)
            || (MainRank(t.main) == MainRank(s.main) && WalkRank(t) == WalkRank(s) && WorkerRank(t) < WorkerRank(s))
  {
    WorkerNearer(s, e);
    WorkerLetsMainBe(s, e);
  }

  lemma Descends(s: State, a: Action)
    requires Inv(s) && !s.running && Step(s, a).Some?
    ensures var t := Step(s, a).value;
            && !t.running
            && (MainRank(t.main) < MainRank(s.main)
                || (MainRank(t.main) == MainRank(s.main)
                    && (WalkRank(t) < WalkRank(s) || (WalkRank(t) == WalkRank(s) && WorkerRank(t) < WorkerRank(s)))))
  {
    match a
    case MainGoes(ready) => MainDescends(s, ready);
    case WorkerGoes(e) => WorkerDescends(s, e);
    case _ =>
  }

  /** The first n actions of an unending schedule. */
  function FirstOf(schedule: nat -> Action, n: nat): seq<Action> {
    if n == 0 then [] else FirstOf(schedule, n - 1) + [schedule(n - 1)]
  }

  lemma AfterNext(s: State, schedule: nat -> Action, n: nat)
    ensures After(s, FirstOf(schedule, n + 1)) ==
            if After(s, FirstOf(schedule, n)) == None then None else Step(After(s, FirstOf(schedule, n)).value, schedule(n))
  {
    assert FirstOf(schedule, n + 1)[..|FirstOf(schedule, n + 1)| - 1] == FirstOf(schedule, n);
  }

  lemma {:induction false} EndsFrom(s: State, schedule: nat -> Action, n: nat, t: State) returns (end: nat)
    requires After(s, FirstOf(schedule, n)) == Some(t) && Inv(t) && !t.running
    ensures end > n && After(s, FirstOf(schedule, end)) == None
    decreases MainRank(t.main), WalkRank(t), WorkerRank(t)
  {
    AfterNext(s, schedule, n);
    var a := schedule(n);
    var next := Step(t, a);
    if next == None {
      end := n + 1;
    } else {
      StepKeepsInv(t, a);
      Descends(t, a);
      end := EndsFrom(s, schedule, n + 1, next.value);
    }
  }

  /** Shutdown completes. Once the flag is cleared, every schedule is finite (no fairness is needed), and where
      no thread can go both have ended, with every device freed and the mutex free. */
  lemma ShutdownCompletes(schedule: seq<Action>, rest: nat -> Action)
    requires After(START, schedule).Some? && !After(START, schedule).value.running
    ensures var s := After(START, schedule).value;
            && (exists n: nat :: After(s, FirstOf(rest, n)) == None)
            && ((forall a :: Step(s, a) == None) ==>
                  Over(s) && s.list == [] && s.mutex == None && forall d: Dev :: d in s.freed <==> d < s.made)
  {
    Reachable(schedule);
    var s := After(START, schedule).value;
    var n := EndsFrom(s, rest, 0, s);
    NotStuck(s);
    if Over(s) {
      NothingLeft(s);
    }
  }
}
