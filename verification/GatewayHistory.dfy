/** What the gateway's threads have done over a whole schedule: which devices were served and checked, and which are
    on the list. The histories are read off the schedule, the list and where a thread stands, not off what it carries. */
module GatewayHistory {
  import opened Options
  import opened Sequences
  import opened GatewayThreads

  /** The state before the last action of a schedule that could be taken. */
  function Before(schedule: seq<Action>): State
    requires schedule != [] && After(START, schedule).Some?
  {
    After(START, schedule[..|schedule| - 1]).value
  }

  function Last(schedule: seq<Action>): Action
    requires schedule != []
  {
    schedule[|schedule| - 1]
  }

  // ---------------------------------------------------------------- who is served

  /** The device a step serves, as a sequence: that of a step the main loop takes at Serve. */
  function ServedBy(s: State, a: Action): seq<Dev> {
    if a.MainGoes? && s.main.Serve? then [s.main.handle] else []
  }

  /** The device a step chooses: select finds an index of the list ready, and it is the entry there at that moment. */
  function ChosenBy(s: State, a: Action): seq<Dev> {
    if a.MainGoes? && s.main.Select? && a.ready < |s.list| then [s.list[a.ready]] else []
  }

  function Served(schedule: seq<Action>): seq<Dev>
    requires After(START, schedule).Some?
  {
    if schedule == [] then [] else Served(schedule[..|schedule| - 1]) + ServedBy(Before(schedule), Last(schedule))
  }

  function Chosen(schedule: seq<Action>): seq<Dev>
    requires After(START, schedule).Some?
  {
    if schedule == [] then [] else Chosen(schedule[..|schedule| - 1]) + ChosenBy(Before(schedule), Last(schedule))
  }

  function ToServe(m: MainPc): seq<Dev> {
    if m.Serve? then [m.handle] else []
  }

  /** Under every schedule the devices served are exactly those chosen, in order, but for one about to be served. */
  lemma {:induction false} ServedIsChosen(schedule: seq<Action>)
    requires After(START, schedule).Some?
    ensures Chosen(schedule) == Served(schedule) + ToServe(After(START, schedule).value.main)
  {
    if schedule != [] {
      var init, s, a := schedule[..|schedule| - 1], Before(schedule), Last(schedule);
      ServedIsChosen(init);
      Reachable(init);
      StepServes(s, a);
      Assoc(Served(init), ToServe(s.main), ChosenBy(s, a));
      Assoc(Served(init), ServedBy(s, a), ToServe(Step(s, a).value.main));
    }
  }

  lemma StepServes(s: State, a: Action)
    requires Inv(s) && Step(s, a).Some?
    ensures ToServe(s.main) + ChosenBy(s, a) == ServedBy(s, a) + ToServe(Step(s, a).value.main)
  {
    if !a.MainGoes? {
      MainMovesByItself(s, a);
    }
  }

  /** Others move the main loop only out of Blocked. */
  lemma MainMovesByItself(s: State, a: Action)
    requires Inv(s) && Step(s, a).Some? && !a.MainGoes?
    ensures Step(s, a).value.main == s.main || (s.main.Blocked? && Step(s, a).value.main.Woken?)
  {
    if a.WorkerGoes? {
      WorkerChanges(s, a.event);
    }
  }

  // ---------------------------------------------------------------- who is checked

  /** The devices whose subscriptions have been checked since the main loop last began to. */
  function Checked(schedule: seq<Action>): seq<Dev>
    requires After(START, schedule).Some?
  {
    if schedule == [] then []
    else
      var s, a := Before(schedule), Last(schedule);
      if a.MainGoes? && s.main.CheckStart? then []
      else Checked(schedule[..|schedule| - 1]) + if a.MainGoes? && s.main.Check? && s.main.pos.At? then [s.main.pos.dev] else []
  }

  /** When the main loop leaves the check, it has checked every device of the list once, in order. */
  lemma {:induction false} ChecksAll(schedule: seq<Action>)
    requires After(START, schedule).Some?
    ensures var s := After(START, schedule).value;
            && (s.main.Check? ==> Checked(schedule) == s.main.seen)
            && (s.main.CheckUnlock? ==> Checked(schedule) == s.list)
  {
    if schedule != [] {
      var init, s, a := schedule[..|schedule| - 1], Before(schedule), Last(schedule);
      ChecksAll(init);
      Reachable(init);
      if !a.MainGoes? {
        MainMovesByItself(s, a);
        if MainHolds(s.main) {
          OthersLeaveListDuring(s, a);
        }
      }
    }
  }

  lemma OthersLeaveListDuring(s: State, a: Action)
    requires Inv(s) && Step(s, a).Some? && !a.MainGoes? && MainHolds(s.main)
    ensures Step(s, a).value.list == s.list
  {
    if a.WorkerGoes? {
      WorkerChanges(s, a.event);
    }
  }

  // ---------------------------------------------------------------- laps

  /** The main loop enters a lap, asks select, leaves the check of the subscriptions. */
  datatype Milestone = Enters | Asks | Leaves

  predicate Passes(s: State, a: Action, m: Milestone) {
    a.MainGoes?
    && match m
       case Enters => s.main.MainLoop? && s.running
       case Asks => s.main.Select?
       case Leaves => s.main.CheckUnlock?
  }

  function Times(schedule: seq<Action>, m: Milestone): nat
    requires After(START, schedule).Some?
  {
    if schedule == [] then 0
    else Times(schedule[..|schedule| - 1], m) + if Passes(Before(schedule), Last(schedule), m) then 1 else 0
  }

  predicate InLap(m: MainPc) {
    !m.MainLoop? && !m.Join? && !m.Exited?
  }

  predicate BeforeAsking(m: MainPc) {
    || m.MainLock? || m.TestEmpty? || m.TestRunning? || m.Wait? || m.Blocked? || m.Woken?
    || m.CollectStart? || m.Collect? || m.Select?
  }

  /** Every lap asks select once and checks the subscriptions once: no lap is cut short. */
  lemma {:induction false} LapsAreWhole(schedule: seq<Action>)
    requires After(START, schedule).Some?
    ensures var m := After(START, schedule).value.main;
            && Times(schedule, Enters) == Times(schedule, Leaves) + (if InLap(m) then 1 else 0)
            && Times(schedule, Enters) == Times(schedule, Asks) + (if BeforeAsking(m) then 1 else 0)
  {
    if schedule != [] {
      var init, s, a := schedule[..|schedule| - 1], Before(schedule), Last(schedule);
      LapsAreWhole(init);
      Reachable(init);
      if a.MainGoes? {
        LapStep(s, a.ready);
      } else {
        MainMovesByItself(s, a);
      }
    }
  }

  lemma LapStep(s: State, ready: nat)
    requires MainStep(s, ready).Some?
    ensures var t, a := MainStep(s, ready).value, MainGoes(ready);
            && (InLap(t.main) <==> (InLap(s.main) && !Passes(s, a, Leaves)) || Passes(s, a, Enters))
            && (BeforeAsking(t.main) <==> (BeforeAsking(s.main) && !Passes(s, a, Asks)) || Passes(s, a, Enters))
            && (Passes(s, a, Enters) ==> !InLap(s.main) && !BeforeAsking(s.main))
            && (Passes(s, a, Asks) ==> BeforeAsking(s.main)) && (Passes(s, a, Leaves) ==> InLap(s.main))
  {
  }

  /** While the flag is set, select is asked only when there is a device, and the main loop waits only when there
      is none. */
  lemma AsksForDevices(schedule: seq<Action>)
    requires After(START, schedule).Some?
    ensures var s := After(START, schedule).value;
            && (s.main.Select? && s.running ==> s.list != [])
            && (s.main.Wait? ==> s.list == [])
  {
    Reachable(schedule);
  }

  // ---------------------------------------------------------------- who comes and goes

  /** A worker step that looks at a descriptor and meets this event there. */
  predicate Meets(s: State, a: Action) {
    a.WorkerGoes? && s.worker.Scan? && s.worker.left > 0
  }

  /** How many devices have been announced: the worker has met that many Hellos. */
  function Announced(schedule: seq<Action>): nat
    requires After(START, schedule).Some?
  {
    if schedule == [] then 0
    else Announced(schedule[..|schedule| - 1]) + NewBy(Before(schedule), Last(schedule))
  }

  function NewBy(s: State, a: Action): nat {
    if Meets(s, a) && a.event.Hello? then 1 else 0
  }

  /** The devices whose connections the worker has found broken. */
  function Lost(schedule: seq<Action>): set<Dev>
    requires After(START, schedule).Some?
  {
    if schedule == [] then {} else Lost(schedule[..|schedule| - 1]) + LostBy(Before(schedule), Last(schedule))
  }

  function LostBy(s: State, a: Action): set<Dev> {
    if Meets(s, a) && a.event.Broken? then {a.event.dev} else {}
  }

  /** The first n devices in order, without some. */
  function Without(n: nat, gone: set<Dev>): seq<Dev> {
    if n == 0 then [] else Without(n - 1, gone) + Unless(gone, n - 1)
  }

  function Unless(gone: set<Dev>, d: Dev): seq<Dev> {
    if d in gone then [] else [d]
  }

  lemma {:induction false} WithoutHas(n: nat, gone: set<Dev>, d: Dev)
    ensures d in Without(n, gone) <==> d < n && d !in gone
  {
    if n > 0 {
      WithoutHas(n - 1, gone, d);
    }
  }

  lemma {:induction false} WithoutInOrder(n: nat, gone: set<Dev>, i: nat, j: nat)
    requires i < j < |Without(n, gone)|
    ensures Without(n, gone)[i] < Without(n, gone)[j]
  {
    if j < |Without(n - 1, gone)| {
      WithoutInOrder(n - 1, gone, i, j);
    } else {
      WithoutHas(n - 1, gone, Without(n - 1, gone)[i]);
    }
  }

  lemma IndexInFront(a: seq<Dev>, b: seq<Dev>, d: Dev)
    requires d in a
    ensures d in a + b && IndexOf(a + b, d) == IndexOf(a, d)
  {
    if a[0] != d {
      assert (a + b)[1..] == a[1..] + b;
      IndexInFront(a[1..], b, d);
    }
  }

  lemma RemovedFront(a: seq<Dev>, b: seq<Dev>, d: Dev)
    requires d in a
    ensures Removed(a + b, d) == Removed(a, d) + b
  {
    var i := IndexOf(a, d);
    IndexInFront(a, b, d);
    RemovedAt(a + b, d, i);
    RemovedAt(a, d, i);
    CutFront(a, b, i);
  }

  lemma RemovedAt(list: seq<Dev>, d: Dev, i: nat)
    requires d in list && i == IndexOf(list, d)
    ensures i < |list| && Removed(list, d) == list[..i] + list[i + 1..]
  {
  }

  lemma CutFront(a: seq<Dev>, b: seq<Dev>, i: nat)
    requires i < |a|
    ensures (a + b)[..i] + (a + b)[i + 1..] == a[..i] + a[i + 1..] + b
  {
    assert (a + b)[..i] == a[..i];
    assert (a + b)[i + 1..] == a[i + 1..] + b;
    Assoc(a[..i], a[i + 1..], b);
  }

  lemma RemovedBack(a: seq<Dev>, d: Dev)
    requires d !in a
    ensures Removed(a + [d], d) == a
  {
    var i := IndexOf(a + [d], d);
    assert (a + [d])[i] == d;
    assert i == |a|;
  }

  lemma {:induction false} SameWithout(n: nat, gone: set<Dev>, more: set<Dev>)
    requires forall d :: d < n ==> (d in gone <==> d in more)
    ensures Without(n, gone) == Without(n, more)
  {
    if n > 0 {
      SameWithout(n - 1, gone, more);
    }
  }

  lemma LastOne(n: nat, gone: set<Dev>)
    requires n > 0
    ensures Without(n, gone) == Without(n - 1, gone) + Unless(gone, n - 1)
  {
  }

  /** One more device of two lists, of which one lacks d. */
  lemma RemovedThen(a: seq<Dev>, b: seq<Dev>, u: seq<Dev>, d: Dev, c: seq<Dev>, e: seq<Dev>)
    requires d in a && Removed(a, d) == b && c == a + u && e == b + u
    ensures Removed(c, d) == e
  {
    RemovedFront(a, u, d);
  }

  lemma RemovedLast(a: seq<Dev>, d: Dev, c: seq<Dev>, e: seq<Dev>)
    requires d !in a && c == a + [d] && e == a + []
    ensures Removed(c, d) == e
  {
    RemovedBack(a, d);
  }

  lemma {:induction false} RemovedWithout(n: nat, gone: set<Dev>, d: Dev, more: set<Dev>)
    requires d < n && d !in gone && forall x :: x in more <==> x in gone || x == d
    ensures Removed(Without(n, gone), d) == Without(n, more)
  {
    var a, b := Without(n - 1, gone), Without(n - 1, more);
    LastOne(n, gone);
    LastOne(n, more);
    WithoutHas(n - 1, gone, d);
    if d == n - 1 {
      SameWithout(n - 1, gone, more);
      RemovedLast(a, d, Without(n, gone), Without(n, more));
    } else {
      RemovedWithout(n - 1, gone, d, more);
      assert Unless(more, n - 1) == Unless(gone, n - 1);
      RemovedThen(a, b, Unless(gone, n - 1), d, Without(n, gone), Without(n, more));
    }
  }

  /** The device the worker is about to put on the list counts as announced, but is not there yet. */
  function Coming(w: WorkerPc): nat {
    if w.AddLock? || w.AddInsert? then 1 else 0
  }

  /** The device the worker is about to take off the list. */
  function Going(w: WorkerPc): set<Dev> {
    if w.Notify? || w.DelLock? || w.DelRemove? then {w.dev} else {}
  }

  /** The device the worker has taken off the list and is about to free. */
  function Gone(w: WorkerPc): set<Dev> {
    if w.DelUnlock? || w.Free? then {w.dev} else {}
  }

  ghost predicate Told(s: State, announced: nat, lost: set<Dev>) {
    && s.made == announced
    && Coming(s.worker) <= announced
    && (s.worker.AddLock? || s.worker.AddInsert? ==> s.worker.dev == announced - 1)
    && (forall d :: d in lost ==> d < announced - Coming(s.worker))
    && Going(s.worker) <= lost && Gone(s.worker) <= lost
    && s.list == Without(announced - Coming(s.worker), lost - Going(s.worker))
    && s.freed == lost - Going(s.worker) - Gone(s.worker)
  }

  lemma OthersTell(s: State, a: Action, announced: nat, lost: set<Dev>)
    requires Told(s, announced, lost) && Inv(s) && Step(s, a).Some? && !a.WorkerGoes?
    ensures Told(Step(s, a).value, announced + NewBy(s, a), lost + LostBy(s, a))
  {
    assert lost + {} == lost;
    if a.MainGoes? {
      MainChanges(s, a.ready);
    }
  }

  lemma MeetingTells(s: State, e: Event, announced: nat, lost: set<Dev>)
    requires Told(s, announced, lost) && s.worker.Scan? && WorkerStep(s, e).Some?
    ensures var a := WorkerGoes(e);
            Told(WorkerStep(s, e).value, announced + NewBy(s, a), lost + LostBy(s, a))
  {
    assert lost - {} == lost && lost + {} == lost;
    if s.worker.left > 0 && e.Broken? {
      WithoutHas(announced, lost, e.dev);
      assert lost + {e.dev} - {e.dev} == lost;
    }
  }

  lemma AddingTells(s: State, e: Event, announced: nat, lost: set<Dev>)
    requires Told(s, announced, lost) && WorkerStep(s, e).Some?
    requires s.worker.AddLock? || s.worker.AddInsert? || s.worker.AddBroadcast? || s.worker.AddUnlock?
    ensures Told(WorkerStep(s, e).value, announced, lost)
  {
  }

  /** Up to the removal, and from there to the release, nothing is moved. */
  lemma WaitingTells(s: State, e: Event, announced: nat, lost: set<Dev>)
    requires Told(s, announced, lost) && WorkerStep(s, e).Some?
    requires s.worker.Notify? || s.worker.DelLock? || s.worker.DelUnlock?
    ensures Told(WorkerStep(s, e).value, announced, lost)
  {
    var w, v := s.worker, WorkerStep(s, e).value.worker;
    assert Going(v) == Going(w) && Gone(v) == Gone(w) && Coming(v) == Coming(w);
  }

  lemma BackAndForth(lost: set<Dev>, d: Dev)
    requires d in lost
    ensures lost - {d} + {d} == lost && lost - {} == lost && lost - {d} - {} == lost - {d}
  {
  }

  lemma RemovalTells(s: State, e: Event, announced: nat, lost: set<Dev>)
    requires Told(s, announced, lost) && WorkerStep(s, e).Some? && s.worker.DelRemove?
    ensures Told(WorkerStep(s, e).value, announced, lost)
  {
    var d := s.worker.dev;
    BackAndForth(lost, d);
    RemovedWithout(announced, lost - {d}, d, lost);
  }

  lemma ReleaseTells(s: State, e: Event, announced: nat, lost: set<Dev>)
    requires Told(s, announced, lost) && WorkerStep(s, e).Some? && s.worker.Free? && !Leaving(s.worker)
    ensures Told(WorkerStep(s, e).value, announced, lost)
  {
    BackAndForth(lost, s.worker.dev);
  }

  lemma WorkerTells(s: State, e: Event, announced: nat, lost: set<Dev>)
    requires Told(s, announced, lost) && WorkerStep(s, e).Some? && !Leaving(s.worker)
    requires !Leaving(WorkerStep(s, e).value.worker)
    ensures var a := WorkerGoes(e);
            Told(WorkerStep(s, e).value, announced + NewBy(s, a), lost + LostBy(s, a))
  {
    assert lost + {} == lost;
    match s.worker
    case Top =>
    case Scan(_) => MeetingTells(s, e, announced, lost);
    case AddLock(_, _) => AddingTells(s, e, announced, lost);
    case AddInsert(_, _) => AddingTells(s, e, announced, lost);
    case AddBroadcast(_) => AddingTells(s, e, announced, lost);
    case AddUnlock(_) => AddingTells(s, e, announced, lost);
    case DelRemove(_, _) => RemovalTells(s, e, announced, lost);
    case Free(_, _) => ReleaseTells(s, e, announced, lost);
    case _ => WaitingTells(s, e, announced, lost);
  }

  lemma LeavingIsForGood(s: State, a: Action)
    requires Inv(s) && Step(s, a).Some? && Leaving(s.worker)
    ensures Leaving(Step(s, a).value.worker)
  {
    if a.MainGoes? {
      MainChanges(s, a.ready);
    }
  }

  lemma StepTells(s: State, a: Action, announced: nat, lost: set<Dev>)
    requires Inv(s) && Step(s, a).Some? && !Leaving(Step(s, a).value.worker)
    requires !Leaving(s.worker) ==> Told(s, announced, lost)
    ensures Told(Step(s, a).value, announced + NewBy(s, a), lost + LostBy(s, a))
  {
    if Leaving(s.worker) {
      LeavingIsForGood(s, a);
    } else if a.WorkerGoes? {
      WorkerTells(s, a.event, announced, lost);
    } else {
      OthersTell(s, a, announced, lost);
    }
  }

  /** Told, of the histories before the last step and after it. */
  lemma LastStepTells(schedule: seq<Action>)
    requires schedule != [] && After(START, schedule).Some? && !Leaving(After(START, schedule).value.worker)
    requires var init := schedule[..|schedule| - 1];
             !Leaving(Before(schedule).worker) ==> Told(Before(schedule), Announced(init), Lost(init))
    ensures Told(After(START, schedule).value, Announced(schedule), Lost(schedule))
  {
    var init := schedule[..|schedule| - 1];
    Reachable(init);
    StepTells(Before(schedule), Last(schedule), Announced(init), Lost(init));
  }

  lemma StartTells()
    ensures Told(START, 0, {})
  {
  }

  lemma {:induction false} HistoryTells(schedule: seq<Action>)
    requires After(START, schedule).Some? && !Leaving(After(START, schedule).value.worker)
    ensures Told(After(START, schedule).value, Announced(schedule), Lost(schedule))
  {
    if schedule == [] {
      StartTells();
    } else {
      if !Leaving(Before(schedule).worker) {
        HistoryTells(schedule[..|schedule| - 1]);
      }
      LastStepTells(schedule);
    }
  }

  lemma ToldPlainly(s: State, announced: nat, lost: set<Dev>)
    requires Told(s, announced, lost)
    ensures forall d :: d in lost <==> d in s.freed || d in Going(s.worker) || d in Gone(s.worker)
    ensures s.worker.Top? || s.worker.Scan? ==> s.freed == lost && s.list == Without(announced, lost)
  {
    assert lost - {} == lost;
  }

  /** Until the worker cleans up: a device is freed, or on its way to be, exactly if its connection was found broken.
      When the worker has nothing in its hands, the broken devices have been freed, and the list holds the
      announced devices in order without the broken ones. */
  lemma LostAreFreed(schedule: seq<Action>)
    requires After(START, schedule).Some? && !Leaving(After(START, schedule).value.worker)
    ensures var s := After(START, schedule).value;
            && (forall d :: d in Lost(schedule) <==> d in s.freed || d in Going(s.worker) || d in Gone(s.worker))
            && (s.worker.Top? || s.worker.Scan? ==>
                  s.freed == Lost(schedule) && s.list == Without(Announced(schedule), Lost(schedule)))
  {
    HistoryTells(schedule);
    ToldPlainly(After(START, schedule).value, Announced(schedule), Lost(schedule));
  }

  // ---------------------------------------------------------------- passes of the worker

  /** How many descriptors the worker's passes so far cover. */
  function Covered(schedule: seq<Action>): nat
    requires After(START, schedule).Some?
  {
    if schedule == [] then 0
    else Covered(schedule[..|schedule| - 1]) + CoveredBy(Before(schedule), Last(schedule))
  }

  function CoveredBy(s: State, a: Action): nat {
    if a.WorkerGoes? && s.worker.Top? && a.event.Descriptors? && s.running then a.event.n else 0
  }

  /** How many it has looked at. */
  function Looked(schedule: seq<Action>): nat
    requires After(START, schedule).Some?
  {
    if schedule == [] then 0
    else Looked(schedule[..|schedule| - 1]) + if Meets(Before(schedule), Last(schedule)) then 1 else 0
  }

  function StillToLook(w: WorkerPc): nat {
    match w
    case Scan(left) => left
    case AddLock(_, left) => left
    case AddInsert(_, left) => left
    case AddBroadcast(left) => left
    case AddUnlock(left) => left
    case Notify(_, ret) => StillAfter(ret)
    case DelLock(_, ret) => StillAfter(ret)
    case DelRemove(_, ret) => StillAfter(ret)
    case DelUnlock(_, ret) => StillAfter(ret)
    case Free(_, ret) => StillAfter(ret)
    case _ => 0
  }

  function StillAfter(ret: Return): nat {
    if ret.ToScan? then ret.left else 0
  }

  /** Every pass looks at each descriptor once, whatever it meets there, also when the flag is cleared meanwhile. */
  lemma {:induction false} PassesAreWhole(schedule: seq<Action>)
    requires After(START, schedule).Some?
    ensures Covered(schedule) == Looked(schedule) + StillToLook(After(START, schedule).value.worker)
  {
    if schedule != [] {
      var init, s, a := schedule[..|schedule| - 1], Before(schedule), Last(schedule);
      PassesAreWhole(init);
      Reachable(init);
      if a.WorkerGoes? {
        PassStep(s, a.event);
      } else if a.MainGoes? {
        MainChanges(s, a.ready);
      }
    }
  }

  lemma PassStep(s: State, e: Event)
    requires WorkerStep(s, e).Some?
    ensures var a := WorkerGoes(e);
            StillToLook(s.worker) + CoveredBy(s, a) ==
            StillToLook(WorkerStep(s, e).value.worker) + if Meets(s, a) then 1 else 0
  {
  }
}
