/** When a node samples which sensor: event counting, rates, and their configuration. */
module Schedule {
  import opened Options
  import opened Bits

  datatype Sensor = Acceleration | AmbientLight | Audio | Force | Temperature

  /** sens_SensorConfigurationType: each slot holds at most one rate. */
  datatype Config = Config(acceleration: Option<int>, ambientLight: Option<int>, audio: Option<int>,
                           force: Option<int>, temperature: Option<int>)

  const EMPTY := Config(None, None, None, None, None)

  function Slot(c: Config, s: Sensor): Option<int> {
    match s
    case Acceleration => c.acceleration
    case AmbientLight => c.ambientLight
    case Audio => c.audio
    case Force => c.force
    case Temperature => c.temperature
  }

  function Filled(c: Config, s: Sensor, rate: int): Config {
    match s
    case Acceleration => c.(acceleration := Some(rate))
    case AmbientLight => c.(ambientLight := Some(rate))
    case Audio => c.(audio := Some(rate))
    case Force => c.(force := Some(rate))
    case Temperature => c.(temperature := Some(rate))
  }

  /** Which sensors get_sensor_values has read; it never reads audio. */
  datatype Sample = Sample(accelleration: bool, light: bool, force: bool, temperature: bool)

  function Sampled(s: Sample, x: Sensor): bool {
    match x
    case Acceleration => s.accelleration
    case AmbientLight => s.light
    case Audio => false
    case Force => s.force
    case Temperature => s.temperature
  }

  function Max(x: int, y: int): int {
    if x > y then x else y
  }

  /** % of C, which truncates towards zero. */
  function CMod(a: int, b: int): int
    requires b > 0
  {
    if a >= 0 then a % b else -((-a) % b)
  }

  /** 1 << rate is defined on an int of 32 bits. */
  predicate Shiftable(rate: int) {
    0 <= rate <= 30
  }

  ghost predicate ShiftableConfig(c: Config) {
    forall s :: Slot(c, s).Some? ==> Shiftable(Slot(c, s).value)
  }

  // ---------------------------------------------------------------- the node's state

  /** The counter of the sensor values event, the rates set and the rates the node is capable of. */
  datatype State = State(event: int, sensorConfig: Config, allSensorConfig: Config)

  /** init_sensors */
  const INIT := State(0, Config(Some(6), None, None, Some(7), Some(7)), Config(Some(1), Some(1), None, Some(1), Some(4)))

  /** The condition get_sensor_values puts on each sensor. */
  predicate DueSlot(capable: Option<int>, rate: Option<int>, eventCount: int)
    requires rate.Some? ==> Shiftable(rate.value)
  {
    (eventCount < 0 && capable.Some?) || (rate.Some? && CMod(eventCount, Pow2(rate.value)) == 0)
  }

  /** A sensor is due at this event count. */
  predicate Due(s: State, x: Sensor, eventCount: int)
    requires ShiftableConfig(s.sensorConfig)
  {
    DueSlot(Slot(s.allSensorConfig, x), Slot(s.sensorConfig, x), eventCount)
  }

  const ORDER := [Acceleration, AmbientLight, Audio, Force, Temperature]

  /** config_rate: None if add_ finds the slot filled and its null result is dereferenced. */
  function Configured(s: State, request: Config, x: Sensor): Option<State> {
    if Slot(request, x).None? || Slot(s.allSensorConfig, x).None? then Some(s)
    else if Slot(s.sensorConfig, x).Some? then None
    else Some(s.(sensorConfig := Filled(s.sensorConfig, x, Max(Slot(request, x).value, Slot(s.allSensorConfig, x).value))))
  }

  function ConfiguredAll(s: State, request: Config, xs: seq<Sensor>): Option<State> {
    if xs == [] then Some(s)
    else
      var before := ConfiguredAll(s, request, xs[..|xs| - 1]);
      if before == None then None else Configured(before.value, request, xs[|xs| - 1])
  }

  /** A request asks for a rate of a supported sensor that already has one. */
  ghost predicate Clash(s: State, request: Config, x: Sensor) {
    Slot(request, x).Some? && Slot(s.allSensorConfig, x).Some? && Slot(s.sensorConfig, x).Some?
  }

  function SlotAfter(s: State, request: Config, x: Sensor): Option<int> {
    if Slot(request, x).Some? && Slot(s.allSensorConfig, x).Some?
    then Some(Max(Slot(request, x).value, Slot(s.allSensorConfig, x).value))
    else Slot(s.sensorConfig, x)
  }

  /** Sensor by sensor, whatever the order. */
  lemma {:induction false} ConfigureSome(s: State, request: Config, xs: seq<Sensor>)
    requires forall i, j :: 0 <= i < j < |xs| ==> xs[i] != xs[j]
    ensures ConfiguredAll(s, request, xs).Some? <==> forall x :: x in xs ==> !Clash(s, request, x)
    ensures ConfiguredAll(s, request, xs).Some? ==>
              var t := ConfiguredAll(s, request, xs).value;
              && t == s.(sensorConfig := t.sensorConfig)
              && forall x :: Slot(t.sensorConfig, x) == if x in xs then SlotAfter(s, request, x) else Slot(s.sensorConfig, x)
  {
    if xs != [] {
      var ys, y := xs[..|xs| - 1], xs[|xs| - 1];
      assert xs == ys + [y];
      assert y !in ys;
      ConfigureSome(s, request, ys);
      assert y in xs && forall x :: x in xs <==> x in ys || x == y;
      var t := ConfiguredAll(s, request, ys);
      if t.Some? {
        assert Clash(t.value, request, y) <==> Clash(s, request, y);
      }
    }
  }

  lemma ConfigureEach(s: State, request: Config)
    ensures ConfiguredAll(s, request, ORDER).Some? <==> forall x :: !Clash(s, request, x)
    ensures ConfiguredAll(s, request, ORDER).Some? ==>
              var t := ConfiguredAll(s, request, ORDER).value;
              t == s.(sensorConfig := t.sensorConfig) && forall x :: Slot(t.sensorConfig, x) == SlotAfter(s, request, x)
  {
    ConfigureSome(s, request, ORDER);
    forall x: Sensor
      ensures x in ORDER
    {
      assert ORDER[0] == Acceleration && ORDER[1] == AmbientLight && ORDER[2] == Audio && ORDER[3] == Force && ORDER[4] == Temperature;
      match x { case Acceleration => case AmbientLight => case Audio => case Force => case Temperature => }
    }
  }

  /** One rate: nothing set twice. */
  predicate Free(rate: Option<int>, request: Option<int>, capable: Option<int>) {
    request.Some? && capable.Some? ==> rate.None?
  }

  /** One rate: of the request and the capability the one that is not below the other, or else unchanged. */
  predicate SetTo(after: Option<int>, rate: Option<int>, request: Option<int>, capable: Option<int>) {
    if request.Some? && capable.Some?
    then after.Some? && after.value >= request.value && after.value >= capable.value && after.value in {request.value, capable.value}
    else after == rate
  }

  /** configure_sensors gets through exactly if no requested, supported sensor has a rate, and then each of them
      gets the requested rate or the capability's, whichever is slower; nothing else changes. */
  lemma ConfigureExactly(s: State, request: Config)
    ensures var c, a := s.sensorConfig, s.allSensorConfig;
            ConfiguredAll(s, request, ORDER).Some? <==>
            && Free(c.acceleration, request.acceleration, a.acceleration)
            && Free(c.ambientLight, request.ambientLight, a.ambientLight)
            && Free(c.audio, request.audio, a.audio)
            && Free(c.force, request.force, a.force)
            && Free(c.temperature, request.temperature, a.temperature)
    ensures ConfiguredAll(s, request, ORDER).Some? ==> ConfiguredTo(s, request, ConfiguredAll(s, request, ORDER).value)
  {
    ConfigureEach(s, request);
    var c, a := s.sensorConfig, s.allSensorConfig;
    assert Clash(s, request, Acceleration) <==> !Free(c.acceleration, request.acceleration, a.acceleration);
    assert Clash(s, request, AmbientLight) <==> !Free(c.ambientLight, request.ambientLight, a.ambientLight);
    assert Clash(s, request, Audio) <==> !Free(c.audio, request.audio, a.audio);
    assert Clash(s, request, Force) <==> !Free(c.force, request.force, a.force);
    assert Clash(s, request, Temperature) <==> !Free(c.temperature, request.temperature, a.temperature);
    if ConfiguredAll(s, request, ORDER).Some? {
      EachIsTo(s, request, ConfiguredAll(s, request, ORDER).value);
    }
  }

  ghost predicate ConfiguredTo(s: State, request: Config, t: State) {
    var c, a, d := s.sensorConfig, s.allSensorConfig, t.sensorConfig;
    && t.event == s.event && t.allSensorConfig == a
    && SetTo(d.acceleration, c.acceleration, request.acceleration, a.acceleration)
    && SetTo(d.ambientLight, c.ambientLight, request.ambientLight, a.ambientLight)
    && SetTo(d.audio, c.audio, request.audio, a.audio)
    && SetTo(d.force, c.force, request.force, a.force)
    && SetTo(d.temperature, c.temperature, request.temperature, a.temperature)
  }

  lemma EachIsTo(s: State, request: Config, t: State)
    requires t == s.(sensorConfig := t.sensorConfig) && forall x :: Slot(t.sensorConfig, x) == SlotAfter(s, request, x)
    ensures ConfiguredTo(s, request, t)
  {
    forall x: Sensor
      ensures SetTo(Slot(t.sensorConfig, x), Slot(s.sensorConfig, x), Slot(request, x), Slot(s.allSensorConfig, x))
    {
    }
    assert Slot(t.sensorConfig, Acceleration) == t.sensorConfig.acceleration;
    assert Slot(t.sensorConfig, AmbientLight) == t.sensorConfig.ambientLight;
    assert Slot(t.sensorConfig, Audio) == t.sensorConfig.audio;
    assert Slot(t.sensorConfig, Force) == t.sensorConfig.force;
    assert Slot(t.sensorConfig, Temperature) == t.sensorConfig.temperature;
  }

  /** One config_rate after i others; a crash stays a crash. */
  predicate OneMore(s: State, request: Config, i: nat)
    requires i < 5
  {
    var t, u := ConfiguredAll(s, request, ORDER[..i]), ConfiguredAll(s, request, ORDER[..i + 1]);
    && u == (if t == None then None else Configured(t.value, request, ORDER[i]))
    && (u == None ==> ConfiguredAll(s, request, ORDER) == None)
  }

  lemma OneMoreRate(s: State, request: Config, i: nat)
    requires i < 5
    ensures OneMore(s, request, i)
  {
    assert ORDER[..i + 1][..i] == ORDER[..i];
    CrashStays(s, request, ORDER, i + 1);
  }

  lemma {:induction false} CrashStays(s: State, request: Config, xs: seq<Sensor>, i: nat)
    requires i <= |xs|
    ensures ConfiguredAll(s, request, xs[..i]) == None ==> ConfiguredAll(s, request, xs) == None
  {
    if i == |xs| {
      assert xs[..i] == xs;
    } else {
      assert xs[..|xs| - 1][..i] == xs[..i];
      CrashStays(s, request, xs[..|xs| - 1], i);
    }
  }

  // ---------------------------------------------------------------- runs

  /** send_event, a read on demand, or a configuration with these rates. */
  datatype Op = Event | Read | Configure(request: Config)

  function Next(event: int): int {
    (event + 1) % 0x1_0000
  }

  function Step(s: State, op: Op): Option<State> {
    match op
    case Event => Some(s.(event := Next(s.event)))
    case Read => Some(s)
    case Configure(request) => ConfiguredAll(s, request, ORDER)
  }

  /** None: one of the configurations crashed. */
  function After(ops: seq<Op>): Option<State> {
    if ops == [] then Some(INIT)
    else
      var before := After(ops[..|ops| - 1]);
      if before == None then None else Step(before.value, ops[|ops| - 1])
  }

  function Events(ops: seq<Op>): nat {
    if ops == [] then 0 else Events(ops[..|ops| - 1]) + if ops[|ops| - 1] == Event then 1 else 0
  }

  /** What every run keeps: the counter counts, nothing is set that is not supported, or faster than it is. */
  ghost predicate Kept(s: State, ops: seq<Op>) {
    && s.event == Events(ops) % 0x1_0000
    && s.allSensorConfig == INIT.allSensorConfig
    && forall x :: Slot(s.sensorConfig, x).Some? ==>
         Slot(s.allSensorConfig, x).Some? && Slot(s.sensorConfig, x).value >= Slot(s.allSensorConfig, x).value >= 0
  }

  lemma {:induction false} RunKeeps(ops: seq<Op>)
    requires After(ops).Some?
    ensures Kept(After(ops).value, ops)
  {
    if ops != [] {
      var init, op := ops[..|ops| - 1], ops[|ops| - 1];
      RunKeeps(init);
      if op.Configure? {
        ConfigureEach(After(init).value, op.request);
      }
    }
  }

  /** A rate once set never changes: asking again crashes. */
  lemma {:induction false} RateStays(ops: seq<Op>, more: seq<Op>, x: Sensor)
    requires After(ops + more).Some? && After(ops).Some? && Slot(After(ops).value.sensorConfig, x).Some?
    ensures Slot(After(ops + more).value.sensorConfig, x) == Slot(After(ops).value.sensorConfig, x)
  {
    if more == [] {
      assert ops + more == ops;
    } else {
      var init := more[..|more| - 1];
      assert (ops + more)[..|ops + more| - 1] == ops + init;
      RateStays(ops, init, x);
      var s, op := After(ops + init).value, more[|more| - 1];
      assert (ops + more)[|ops + more| - 1] == op;
      RunKeeps(ops + init);
      if op.Configure? {
        ConfigureEach(s, op.request);
        assert !Clash(s, op.request, x);
      }
    }
  }

  /** Three of the four sensors have a rate from the start, so any request for one of them crashes. */
  lemma DefaultsCannotBeChanged(ops: seq<Op>, request: Config)
    requires request.acceleration.Some? || request.force.Some? || request.temperature.Some?
    ensures After(ops + [Configure(request)]) == None
  {
    assert (ops + [Configure(request)])[..|ops|] == ops;
    if After(ops).Some? {
      var s := After(ops).value;
      assert [] + ops == ops && After([]) == Some(INIT);
      RunKeeps(ops);
      forall x | x in {Acceleration, Force, Temperature}
        ensures Slot(s.sensorConfig, x) == Slot(INIT.sensorConfig, x)
      {
        RateStays([], ops, x);
      }
      ConfigureEach(s, request);
      assert Clash(s, request, Acceleration) || Clash(s, request, Force) || Clash(s, request, Temperature);
    }
  }

  /** No request asks a rate above 30 for ambient light, the one rate that is not there from the start. */
  predicate AsksShiftable(ops: seq<Op>) {
    forall i :: 0 <= i < |ops| ==> AskShiftable(ops[i])
  }

  predicate AskShiftable(op: Op) {
    op.Configure? && op.request.ambientLight.Some? ==> op.request.ambientLight.value <= 30
  }

  predicate AsksLight(ops: seq<Op>) {
    exists i :: 0 <= i < |ops| && ops[i].Configure? && ops[i].request.ambientLight.Some?
  }

  lemma OneMoreAsk(ops: seq<Op>, op: Op)
    ensures AsksShiftable(ops + [op]) <==> AsksShiftable(ops) && AskShiftable(op)
    ensures AsksLight(ops + [op]) <==> AsksLight(ops) || (op.Configure? && op.request.ambientLight.Some?)
  {
    var all := ops + [op];
    assert forall i :: 0 <= i < |ops| ==> all[i] == ops[i];
    assert all[|ops|] == op;
  }

  /** A configuration that gets through sets at most the rate of ambient light. */
  lemma OnlyLightIsSet(s: State, request: Config)
    requires s.allSensorConfig == INIT.allSensorConfig && s.sensorConfig == INIT.sensorConfig.(ambientLight := s.sensorConfig.ambientLight)
    requires ConfiguredAll(s, request, ORDER).Some?
    ensures request.ambientLight.Some? ==> s.sensorConfig.ambientLight.None?
    ensures ConfiguredAll(s, request, ORDER).value.sensorConfig ==
            s.sensorConfig.(ambientLight := if request.ambientLight.Some? then Some(Max(request.ambientLight.value, 1))
                                            else s.sensorConfig.ambientLight)
  {
    ConfigureEach(s, request);
    var c := ConfiguredAll(s, request, ORDER).value.sensorConfig;
    assert !Clash(s, request, AmbientLight) && !Clash(s, request, Acceleration);
    assert !Clash(s, request, Force) && !Clash(s, request, Temperature);
    SlotsSay(c);
    assert Slot(c, AmbientLight) == SlotAfter(s, request, AmbientLight) && Slot(c, Audio) == SlotAfter(s, request, Audio);
    assert Slot(c, Acceleration) == SlotAfter(s, request, Acceleration);
    assert Slot(c, Force) == SlotAfter(s, request, Force) && Slot(c, Temperature) == SlotAfter(s, request, Temperature);
  }

  /** The rates after a run. */
  lemma {:induction false} RatesAfter(ops: seq<Op>)
    requires After(ops).Some?
    ensures var c := After(ops).value.sensorConfig;
            && c == INIT.sensorConfig.(ambientLight := c.ambientLight)
            && (c.ambientLight.Some? <==> AsksLight(ops))
            && (c.ambientLight.Some? ==> (Shiftable(c.ambientLight.value) <==> AsksShiftable(ops)))
  {
    if ops != [] {
      var init, op := ops[..|ops| - 1], ops[|ops| - 1];
      assert ops == init + [op];
      RatesAfter(init);
      RunKeeps(init);
      OneMoreAsk(init, op);
      NoLightIsShiftable(init);
      if op.Configure? {
        OnlyLightIsSet(After(init).value, op.request);
      }
    }
  }

  lemma NoLightIsShiftable(ops: seq<Op>)
    ensures !AsksLight(ops) ==> AsksShiftable(ops)
  {
  }

  lemma SlotsSay(c: Config)
    ensures c == Config(Slot(c, Acceleration), Slot(c, AmbientLight), Slot(c, Audio), Slot(c, Force), Slot(c, Temperature))
  {
  }

  /** After a run all shifts by a rate are defined exactly if its requests ask for no rate above 30. */
  lemma ShiftableExactly(ops: seq<Op>)
    requires After(ops).Some?
    ensures ShiftableConfig(After(ops).value.sensorConfig) <==> AsksShiftable(ops)
  {
    RatesAfter(ops);
    NoLightIsShiftable(ops);
    var c := After(ops).value.sensorConfig;
    assert Slot(c, AmbientLight) == c.ambientLight;
  }

  /** One request for a rate of 31 is enough: the next event shifts an int by 31, which is not defined. */
  lemma UndefinedShift()
    ensures var request := EMPTY.(ambientLight := Some(31));
            var r := After([Configure(request)]);
            r.Some? && Slot(r.value.sensorConfig, AmbientLight) == Some(31) && !Shiftable(31)
  {
    var request := EMPTY.(ambientLight := Some(31));
    var ops := [Configure(request)];
    assert ops[..0] == [] && After([]) == Some(INIT);
    ConfigureEach(INIT, request);
    forall x: Sensor
      ensures !Clash(INIT, request, x)
    {
    }
    assert After(ops) == Step(INIT, ops[0]);
    assert Slot(After(ops).value.sensorConfig, AmbientLight) == SlotAfter(INIT, request, AmbientLight);
  }

  // ---------------------------------------------------------------- windows

  lemma ModOfMultiple(n: int, m: int, k: int)
    requires m > 0 && k > 0
    ensures (n % (m * k)) % m == n % m
  {
    var q, r := n / (m * k), n % (m * k);
    assert n == m * (k * q + r / m) + r % m by {
      assert n == (m * k) * q + r;
      assert (m * k) * q == m * (k * q);
      assert m * (k * q + r / m) == m * (k * q) + m * (r / m);
    }
    ModUnique(n, m, k * q + r / m, r % m);
  }

  lemma Divides(a: nat, b: nat)
    requires a <= b
    ensures Pow2(b) == Pow2(a) * Pow2(b - a)
  {
    Pow2Product(a, b - a);
  }

  /** The n-th event, counted from one, is due for this rate. */
  predicate FiresAt(n: nat, rate: nat) {
    (n % 0x1_0000) % 0x8000 % Pow2(rate) == 0
  }

  lemma PowersHere()
    ensures Pow2(15) == 0x8000 && Pow2(16) == 0x1_0000
  {
    assert Pow2(4) == 16 && Pow2(8) == 256 && Pow2(12) == 4096;
  }

  /** Neither the wrap of the counter at 2^16 nor its reduction modulo 2^15 is noticed: a sensor fires at the
      multiples of its period, which is 2^rate up to 2^15. */
  lemma FiresAtMultiples(n: nat, rate: nat)
    ensures FiresAt(n, rate) <==> n % Pow2(if rate <= 15 then rate else 15) == 0
  {
    PowersHere();
    ModOfMultiple(n, 0x8000, 2);
    if rate <= 15 {
      Divides(rate, 15);
      ModOfMultiple(n, Pow2(rate), Pow2(15 - rate));
    } else {
      Pow2Monotone(15, rate);
      assert 0 <= n % 0x8000 < Pow2(rate);
      ModUnique(n % 0x8000, Pow2(rate), 0, n % 0x8000);
    }
  }

  /** Every window of 2^rate consecutive events holds exactly one firing. */
  lemma OneFiringAWindow(start: nat, rate: nat)
    requires rate <= 15
    ensures exists k :: start <= k < start + Pow2(rate) && FiresAt(k, rate)
    ensures forall k, j :: start <= k < start + Pow2(rate) && start <= j < start + Pow2(rate) && FiresAt(k, rate) && FiresAt(j, rate)
              ==> k == j
  {
    var m := Pow2(rate);
    var k := MultipleWithin(start, m);
    FiresAtMultiples(k, rate);
    forall i, j | start <= i < start + m && start <= j < start + m && FiresAt(i, rate) && FiresAt(j, rate)
      ensures i == j
    {
      FiresAtMultiples(i, rate);
      FiresAtMultiples(j, rate);
      OnlyMultiple(start, m, i, j);
    }
  }

  lemma MultipleWithin(start: nat, m: nat) returns (k: nat)
    requires m > 0
    ensures start <= k < start + m && k % m == 0
  {
    var q, r := start / m, start % m;
    if r == 0 {
      k := start;
    } else {
      k := start + (m - r);
      assert m * (q + 1) == m * q + m;
      ModUnique(k, m, q + 1, 0);
    }
  }

  lemma OnlyMultiple(start: nat, m: nat, i: nat, j: nat)
    requires m > 0 && start <= i < start + m && start <= j < start + m && i % m == 0 && j % m == 0
    ensures i == j
  {
    NoMultipleBetween(m, i / m, j / m);
  }

  /** A slower rate fires only where a faster one does. */
  lemma SlowerFiresLess(n: nat, slow: nat, fast: nat)
    requires fast <= slow && FiresAt(n, slow)
    ensures FiresAt(n, fast)
  {
    FiresAtMultiples(n, slow);
    FiresAtMultiples(n, fast);
    var a, b := if fast <= 15 then fast else 15, if slow <= 15 then slow else 15;
    Divides(a, b);
    ModOfMultiple(n, Pow2(a), Pow2(b - a));
  }

  /** For an event count that is not negative. */
  lemma DueAtEvent(s: State, x: Sensor, n: nat)
    requires ShiftableConfig(s.sensorConfig) && s.event == n % 0x1_0000
    ensures Due(s, x, s.event % 0x8000) <==> Slot(s.sensorConfig, x).Some? && FiresAt(n, Slot(s.sensorConfig, x).value)
  {
  }

  /** The schedule of a whole run. At its event number n, with rates that can be shifted, exactly the sensors
      with a rate whose period divides n are read; each of them is one the node could read at that event
      at its fastest. */
  lemma RunSchedule(ops: seq<Op>, x: Sensor)
    requires After(ops + [Event]).Some? && AsksShiftable(ops)
    ensures After(ops).Some? && ShiftableConfig(After(ops).value.sensorConfig)
    ensures var s, n := After(ops + [Event]).value, Events(ops) + 1;
            && Due(s, x, s.event % 0x8000) == (Slot(s.sensorConfig, x).Some? && FiresAt(n, Slot(s.sensorConfig, x).value))
            && (Due(s, x, s.event % 0x8000) ==> Slot(INIT.allSensorConfig, x).Some? && FiresAt(n, Slot(INIT.allSensorConfig, x).value))
  {
    assert (ops + [Event])[..|ops|] == ops;
    ShiftableExactly(ops);
    RunKeeps(ops);
    RunKeeps(ops + [Event]);
    var s := After(ops + [Event]).value;
    DueAtEvent(s, x, Events(ops) + 1);
    if Due(s, x, s.event % 0x8000) {
      SlowerFiresLess(Events(ops) + 1, Slot(s.sensorConfig, x).value, Slot(s.allSensorConfig, x).value);
    }
  }

  /** A read on demand samples exactly the supported sensors. */
  lemma ReadSamplesSupported(ops: seq<Op>, x: Sensor)
    requires After(ops).Some? && AsksShiftable(ops)
    ensures ShiftableConfig(After(ops).value.sensorConfig)
    ensures Due(After(ops).value, x, -1) <==> Slot(INIT.allSensorConfig, x).Some?
  {
    ShiftableExactly(ops);
    RunKeeps(ops);
  }

  // ---------------------------------------------------------------- the code

  /** The node's static variables. */
  class Node {
    var event: int
    var sensorConfig: Config
    var allSensorConfig: Config

    ghost function View(): State
      reads this
    {
      State(event, sensorConfig, allSensorConfig)
    }

    /** init_sensors */
    constructor ()
      ensures View() == INIT
      ensures event == 0
      ensures sensorConfig == Config(acceleration := Some(6), ambientLight := None, audio := None, force := Some(7), temperature := Some(7))
      ensures allSensorConfig ==
              Config(acceleration := Some(1), ambientLight := Some(1), audio := None, force := Some(1), temperature := Some(4))
    {
      event, sensorConfig, allSensorConfig := 0, EMPTY, EMPTY;
      new;
      sensorConfig := sensorConfig.(acceleration := Some(6));
      allSensorConfig := allSensorConfig.(acceleration := Some(1));
      sensorConfig := sensorConfig.(temperature := Some(7));
      allSensorConfig := allSensorConfig.(temperature := Some(4));
      allSensorConfig := allSensorConfig.(force := Some(1));
      sensorConfig := sensorConfig.(force := Some(7));
      allSensorConfig := allSensorConfig.(ambientLight := Some(1));
    }

    /** get_sensor_values: which sensors are read, and whether there is nothing to send. */
    method GetSensorValues(eventCount: int) returns (s: Sample, none: bool)
      requires ShiftableConfig(sensorConfig)
      ensures forall x :: Sampled(s, x) <==> x != Audio && Due(View(), x, eventCount)
      ensures none <==> forall x :: !Sampled(s, x)
    {
      var has_data := false;
      s := Sample(false, false, false, false);
      assert forall x :: Slot(sensorConfig, x).Some? ==> Shiftable(Slot(sensorConfig, x).value);
      assert Slot(sensorConfig, AmbientLight) == sensorConfig.ambientLight && Slot(sensorConfig, Force) == sensorConfig.force;
      assert Slot(sensorConfig, Temperature) == sensorConfig.temperature;
      assert Slot(sensorConfig, Acceleration) == sensorConfig.acceleration;
      if DueSlot(allSensorConfig.ambientLight, sensorConfig.ambientLight, eventCount) {
        s := s.(light := true);
        has_data := true;
      }
      if DueSlot(allSensorConfig.force, sensorConfig.force, eventCount) {
        s := s.(force := true);
        has_data := true;
      }
      if DueSlot(allSensorConfig.temperature, sensorConfig.temperature, eventCount) {
        s := s.(temperature := true);
        has_data := true;
      }
      if DueSlot(allSensorConfig.acceleration, sensorConfig.acceleration, eventCount) {
        s := s.(accelleration := true);
        has_data := true;
      }
      assert Sampled(s, AmbientLight) == s.light && Sampled(s, Force) == s.force;
      assert Sampled(s, Temperature) == s.temperature && Sampled(s, Acceleration) == s.accelleration;
      none := !has_data;
    }

    /** send_event up to the sampling. */
    method SendEvent() returns (s: Sample, none: bool)
      requires ShiftableConfig(sensorConfig)
      modifies this`event
      ensures Some(View()) == Step(old(View()), Event)
      ensures forall x :: Sampled(s, x) <==> x != Audio && Due(View(), x, event % 0x8000)
      ensures none <==> forall x :: !Sampled(s, x)
    {
      event := (event + 1) % 0x1_0000;
      s, none := GetSensorValues(event % 0x8000);
    }

    /** config_rate for one sensor: false where the code dereferences null. */
    method ConfigRate(x: Sensor, request: Config) returns (ok: bool)
      modifies this`sensorConfig
      ensures ok == Configured(old(View()), request, x).Some?
      ensures ok ==> Some(View()) == Configured(old(View()), request, x)
      ensures ok ==> SetTo(Slot(sensorConfig, x), old(Slot(sensorConfig, x)), Slot(request, x), Slot(allSensorConfig, x))
      ensures forall y :: y != x ==> Slot(sensorConfig, y) == old(Slot(sensorConfig, y))
    {
      var c, c_a := Slot(request, x), Slot(allSensorConfig, x);
      if c.Some? && c_a.Some? {
        if Slot(sensorConfig, x).Some? {
          return false;
        }
        sensorConfig := Filled(sensorConfig, x, Max(c.value, c_a.value));
      }
      ok := true;
    }

    /** The rates of configure_sensors, in its order; the answer's two configurations are the node's. */
    method ConfigureSensors(request: Option<Config>) returns (ok: bool, current: Config, capable: Config)
      modifies this`sensorConfig
      ensures request.None? ==> ok && View() == old(View())
      ensures request.Some? ==> ok == forall x :: !Clash(old(View()), request.value, x)
      ensures request.Some? && ok ==> Some(View()) == Step(old(View()), Configure(request.value))
      ensures request.Some? && ok ==> ConfiguredTo(old(View()), request.value, View())
      ensures ok ==> current == sensorConfig && capable == allSensorConfig
    {
      ok, current, capable := true, sensorConfig, allSensorConfig;
      if request.Some? {
        ConfigureEach(View(), request.value);
        ConfigureExactly(View(), request.value);
        OneMoreRate(View(), request.value, 0);
        OneMoreRate(View(), request.value, 1);
        OneMoreRate(View(), request.value, 2);
        OneMoreRate(View(), request.value, 3);
        OneMoreRate(View(), request.value, 4);
        assert ORDER[..0] == [] && ORDER[..5] == ORDER;
        ok := ConfigRate(Acceleration, request.value);
        if !ok { return; }
        ok := ConfigRate(AmbientLight, request.value);
        if !ok { return; }
        ok := ConfigRate(Audio, request.value);
        if !ok { return; }
        ok := ConfigRate(Force, request.value);
        if !ok { return; }
        ok := ConfigRate(Temperature, request.value);
        if !ok { return; }
      }
      current, capable := sensorConfig, allSensorConfig;
    }
  }
}
