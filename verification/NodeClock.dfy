/** The particle's clock: a 16-bit timer of 4096 ticks a second that runs while it is read, a counter of
    seconds, and the offset to global time. Fractions of a second are counted in 1/65536. */
module NodeClock {

  /** struct timeval, with fractions of 1/65536 s in tv_usec. */
  datatype Time = Time(sec: int, frac: int)

  function Total(t: Time): int {
    65536 * t.sec + t.frac
  }

  predicate Normal(t: Time) {
    0 <= t.frac < 65536
  }

  /** Bit 16 of an int in two's complement. */
  predicate Bit16(x: int) {
    (x / 65536) % 2 == 1
  }

  // ---------------------------------------------------------------- offsets

  function Minus(a: Time, b: Time): Time {
    Time(a.sec - b.sec, a.frac - b.frac)
  }

  /** get_globalreltime: the sum with its carry. */
  function Carried(rel: Time, offset: Time): Time {
    var frac := rel.frac + offset.frac;
    if Bit16(frac) then Time(rel.sec + offset.sec + 1, frac - 65536) else Time(rel.sec + offset.sec, frac)
  }

  /** No time is ever lost or gained, and the result is normalised exactly if the sum of the fractions is not
      negative (and has no two carries): a borrow is not handled. */
  lemma CarryConserves(rel: Time, offset: Time)
    ensures Total(Carried(rel, offset)) == Total(rel) + Total(offset)
    ensures Normal(Carried(rel, offset)) <==> 0 <= rel.frac + offset.frac < 0x2_0000
  {
  }

  /** With normalised readings: `now` when the global time v was set, and `rel`. */
  lemma GlobalTime(v: Time, now: Time, rel: Time)
    requires Normal(v) && Normal(now) && Normal(rel)
    ensures Total(Carried(rel, Minus(v, now))) == Total(v) + Total(rel) - Total(now)
    ensures Normal(Carried(rel, Minus(v, now))) <==> now.frac <= v.frac + rel.frac
  {
    CarryConserves(rel, Minus(v, now));
  }

  /** Half a second after 1 s has been set, at a local fraction of a half: the borrow is missed. */
  lemma BorrowIsMissed()
    ensures Carried(Time(10, 0), Minus(Time(1, 0), Time(9, 0x8000))) == Time(3, -0x18000)
    ensures Total(Time(3, -0x18000)) == Total(Time(1, 0x8000))
  {
  }

  // ---------------------------------------------------------------- reading the timer

  function Hi(timer: int): int {
    (timer / 256) % 256
  }

  function Lo(timer: int): int {
    timer % 256
  }

  /** What get_localtime makes of the seconds and the two bytes. The shifted bytes do not overlap, so that
      the or is a sum; the mask keeps 16 bits. */
  function Reading(sec: int, hi: int, lo: int): Time {
    Time(sec + hi / 16, (hi * 4096 + lo * 16) % 65536)
  }

  lemma ReadingIsTimer(sec: int, timer: int)
    requires 0 <= timer < 65536
    ensures Total(Reading(sec, Hi(timer), Lo(timer))) == 65536 * sec + 16 * timer
    ensures Normal(Reading(sec, Hi(timer), Lo(timer)))
  {
    HiIs(timer);
    var h, l := Hi(timer), Lo(timer);
    var q, r := h / 16, h % 16;
    assert h == 16 * q + r && timer == 256 * h + l;
    ModIs(h * 4096 + l * 16, q, r * 4096 + l * 16);
  }

  lemma HiIs(timer: int)
    requires 0 <= timer < 65536
    ensures Hi(timer) == timer / 256
  {
  }

  lemma ModIs(x: int, q: int, r: int)
    requires x == 65536 * q + r && 0 <= r < 65536
    ensures x % 65536 == r
  {
  }

  /** Seen twice with less than a full round between, a high byte has not changed in between. */
  lemma HighByteStood(a: int, d: nat, e: nat)
    requires 0 <= a && d + e <= 65280 && Hi(a + d + e) == Hi(a)
    ensures (a + d) / 256 == a / 256 && (a + d + e) / 256 == a / 256
  {
    var p, q := a / 256, (a + d + e) / 256;
    assert p <= q <= p + 255;
    assert (q - p) % 256 == 0;
  }

  // ---------------------------------------------------------------- one try of a reading

  lemma SameByte(start: int, d: nat, e: nat)
    requires 0 <= start < 65536 && d + e <= 65280
    requires Hi((((start + d) % 65536) + e) % 65536) == Hi(start)
    ensures (start + d) % 65536 == start + d && (start + d + e) % 65536 == start + d + e
    ensures Hi(start + d) == Hi(start)
  {
    var end := start + d + e;
    assert (((start + d) % 65536) + e) % 65536 == end % 65536;
    assert Hi(end % 65536) == Hi(end);
    HighByteStood(start, d, e);
  }

  /** No carry into the high byte: it reads the same. */
  lemma SmallStep(start: int, d: nat, e: nat)
    requires 0 <= start < 65536
    ensures start % 256 + d + e < 256 ==> Hi((((start + d) % 65536) + e) % 65536) == Hi(start)
  {
    if start % 256 + d + e < 256 {
      var end := start + d + e;
      assert start == 256 * (start / 256) + start % 256;
      NoRound(start, d, e);
      HiIs(start);
      HiIs(end);
      assert end / 256 == start / 256;
    }
  }

  lemma NoRound(start: int, d: nat, e: nat)
    requires 0 <= start && start + d + e < 65536
    ensures (start + d) % 65536 == start + d && ((start + d) % 65536 + e) % 65536 == start + d + e
  {
  }

  /** What update_time takes off the timer: q whole seconds, as the upper four bits of the high byte. */
  lemma UpperNibble(timer: int) returns (q: int)
    requires 0 <= timer < 65536
    ensures 0 <= q <= 15 && Hi(timer) / 16 == q && Hi(timer) / 16 * 16 == 16 * q
    ensures 0 <= timer - 4096 * q <= 4095
  {
    HiIs(timer);
    q := timer / 4096;
  }

  lemma Wrap(sec: int, q: int)
    requires 0 <= sec < 65536 && 0 <= q <= 15
    ensures (sec + q) % 65536 == if sec + q < 65536 then sec + q else sec + q - 65536
  {
  }

  /** Ticks before the low byte is read, before the high byte is read again, and before the next try. */
  datatype Gaps = Gaps(lo: nat, again: nat, next: nat)

  /** The timer does not run a whole round within one try. */
  predicate Prompt(tries: seq<Gaps>) {
    forall i :: 0 <= i < |tries| ==> tries[i].lo + tries[i].again <= 65280
  }

  function SumGaps(tries: seq<Gaps>): nat {
    if tries == [] then 0 else tries[0].lo + tries[0].again + tries[0].next + SumGaps(tries[1..])
  }

  // ---------------------------------------------------------------- the code

  class Clock {
    var sec: int
    var timer: int
    var timeoffset: Time
    /** Ticks that have truly gone by. */
    ghost var elapsed: int

    ghost predicate Valid()
      reads this
    {
      0 <= sec < 65536 && 0 <= timer < 65536
    }

    /** Local time in ticks. */
    ghost function Ticks(): int
      reads this
    {
      4096 * sec + timer
    }

    /** The clock has lost nothing. */
    ghost predicate Exact()
      reads this
    {
      Valid() && Ticks() == elapsed
    }

    /** init_time */
    constructor ()
      ensures Exact() && elapsed == 0
    {
      sec, timer, timeoffset, elapsed := 0, 0, Time(0, 0), 0;
    }

    /** The timer runs. */
    method Tick(d: nat)
      modifies this`timer, this`elapsed
      ensures timer == (old(timer) + d) % 65536 && elapsed == old(elapsed) + d
    {
      timer := (timer + d) % 65536;
      elapsed := elapsed + d;
    }

    /** update_time, with ticks between its accesses to the high byte. Called before the timer overflows, it
        moves whole seconds from the timer to the counter and keeps their sum, until the counter wraps. */
    method UpdateTime(d: nat, e: nat)
      requires Valid() && timer + d + e < 65536
      modifies this`timer, this`sec, this`elapsed
      ensures Valid() && timer <= 4095 + d + e && old(elapsed) <= elapsed <= old(elapsed) + d + e
      ensures Ticks() - elapsed == old(Ticks() - elapsed) - if sec < old(sec) then 4096 * 65536 else 0
      ensures sec < old(sec) ==> old(sec) + 15 >= 65536
      ensures sec <= old(sec) + 15
    {
      ghost var q := UpperNibble(timer);
      if Hi(timer) / 16 != 0 {
        NoRound(timer, d, e);
        Tick(d);
        q := UpperNibble(timer);
        Wrap(sec, q);
        var overflow := Hi(timer) / 16 * 16;
        sec := (sec + overflow / 16) % 65536;
        Tick(e);
        timer := timer - 256 * overflow;
      }
    }

    /** The loop body of get_localtime and its condition. */
    method Attempt(g: Gaps) returns (t: Time, ok: bool)
      requires Valid() && g.lo + g.again <= 65280
      modifies this`timer, this`elapsed
      ensures Valid() && elapsed == old(elapsed) + g.lo + g.again
      ensures ok ==> Normal(t) && Total(t) == 16 * (Ticks() - g.again)
      ensures old(timer) % 256 + g.lo + g.again < 256 ==> ok
      ensures ok || old(timer) + g.lo + g.again < 65536 ==> timer == old(timer) + g.lo + g.again
    {
      ghost var start := timer;
      if start + g.lo + g.again < 65536 {
        NoRound(start, g.lo, g.again);
      }
      var hi := Hi(timer);
      Tick(g.lo);
      ghost var read := timer;
      var lo := Lo(timer);
      Tick(g.again);
      ok := Hi(timer) == hi;
      if ok {
        SameByte(start, g.lo, g.again);
        ReadingIsTimer(sec, read);
      } else {
        SmallStep(start, g.lo, g.again);
      }
      t := Reading(sec, hi, lo);
    }

    /** get_localtime: it tries again until the high byte reads the same before and after the low byte. The
        result is the local time of the moment at which the low byte was read, `since` ticks ago. */
    method GetLocaltime(tries: seq<Gaps>) returns (t: Time, ok: bool, ghost since: nat)
      requires Valid() && Prompt(tries)
      modifies this`timer, this`elapsed
      ensures Valid()
      ensures ok ==> Normal(t) && Total(t) == 16 * (Ticks() - since) && old(elapsed) + since <= elapsed
      ensures |tries| > 0 && old(timer) % 256 + tries[0].lo + tries[0].again < 256 ==> ok
      ensures old(timer) + SumGaps(tries) < 65536 ==> timer - elapsed == old(timer - elapsed) && timer <= old(timer) + SumGaps(tries)
      ensures elapsed >= old(elapsed)
    {
      t, ok, since := Time(0, 0), false, 0;
      var k := 0;
      while k < |tries|
        invariant 0 <= k <= |tries| && Valid() && elapsed >= old(elapsed)
        invariant k > 0 ==> old(timer) % 256 + tries[0].lo + tries[0].again >= 256
        invariant k == 0 ==> timer == old(timer)
        invariant old(timer) + SumGaps(tries) < 65536 ==>
                    timer - elapsed == old(timer - elapsed) && timer + SumGaps(tries[k..]) <= old(timer) + SumGaps(tries)
      {
        assert tries[k..][1..] == tries[k + 1..];
        t, ok := Attempt(tries[k]);
        if ok {
          since := tries[k].again;
          return;
        }
        Tick(tries[k].next);
        k := k + 1;
      }
    }

    /** set_globaltime */
    method SetGlobaltime(v: Time, tries: seq<Gaps>) returns (ok: bool, ghost now: Time, ghost since: nat)
      requires Valid() && Prompt(tries)
      modifies this`timer, this`elapsed, this`timeoffset
      ensures Valid()
      ensures ok ==> Normal(now) && Total(now) == 16 * (Ticks() - since) && old(elapsed) + since <= elapsed
      ensures ok ==> timeoffset == Minus(v, now)
      ensures old(timer) + SumGaps(tries) < 65536 ==> timer - elapsed == old(timer - elapsed) && timer <= old(timer) + SumGaps(tries)
    {
      var t;
      t, ok, since := GetLocaltime(tries);
      now := t;
      if ok {
        timeoffset := Minus(v, t);
      }
    }

    /** get_globaltime */
    method GetGlobaltime(tries: seq<Gaps>) returns (out: Time, ok: bool, ghost now: Time, ghost since: nat)
      requires Valid() && Prompt(tries)
      modifies this`timer, this`elapsed
      ensures Valid()
      ensures ok ==> Normal(now) && Total(now) == 16 * (Ticks() - since) && old(elapsed) + since <= elapsed
      ensures ok ==> out == Carried(now, timeoffset)
      ensures old(timer) + SumGaps(tries) < 65536 ==> timer - elapsed == old(timer - elapsed)
    {
      var t;
      t, ok, since := GetLocaltime(tries);
      now := t;
      out := Carried(t, timeoffset);
    }
  }

  function Sum(s: seq<nat>): nat {
    if s == [] then 0 else Sum(s[..|s| - 1]) + s[|s| - 1]
  }

  /** Global time is set to v; stretches of at most 15 s go by, with an update after each; global time is read.
      The result is v and the time truly gone by between the two moments of reading, to the tick, and it is
      normalised exactly if the sum of the fractions needs no borrow. */
  method SetAndGet(clock: Clock, v: Time, first: seq<Gaps>, waits: seq<nat>, last: seq<Gaps>)
      returns (ok: bool, out: Time, ghost set_at: int, ghost read_at: int)
    requires clock.Exact() && Normal(v) && Prompt(first) && Prompt(last)
    requires clock.timer + SumGaps(first) < 65536 && SumGaps(last) <= 61440
    requires forall i :: 0 <= i < |waits| ==> waits[i] <= 61440
    requires clock.sec + 15 * (|waits| + 1) < 65536
    modifies clock
    ensures clock.Exact()
    ensures ok ==> old(clock.elapsed) <= set_at && set_at + Sum(waits) <= read_at <= clock.elapsed
    ensures ok ==> Total(out) == Total(v) + 16 * (read_at - set_at)
    ensures ok ==> (Normal(out) <==> (16 * set_at) % 65536 <= v.frac + (16 * read_at) % 65536)
  {
    out, set_at, read_at := v, 0, 0;
    ghost var now, rel, since;
    ok, now, since := clock.SetGlobaltime(v, first);
    set_at := clock.elapsed - since;
    clock.UpdateTime(0, 0);
    for i := 0 to |waits|
      invariant clock.Exact() && clock.timer <= 4095 && clock.sec + 15 * (|waits| - i) < 65536
      invariant ok ==> clock.timeoffset == Minus(v, now)
      invariant ok ==> clock.elapsed >= set_at + Sum(waits[..i]) && set_at >= old(clock.elapsed)
    {
      clock.Tick(waits[i]);
      clock.UpdateTime(0, 0);
      assert waits[..i + 1][..i] == waits[..i];
    }
    if !ok {
      return;
    }
    assert waits[..|waits|] == waits;
    out, ok, rel, since := clock.GetGlobaltime(last);
    read_at := clock.elapsed - since;
    if ok {
      GlobalTime(v, now, rel);
      FractionOf(now);
      FractionOf(rel);
    }
  }

  lemma FractionOf(t: Time)
    requires Normal(t)
    ensures Total(t) % 65536 == t.frac
  {
    ModIs(Total(t), t.sec, t.frac);
  }
}
