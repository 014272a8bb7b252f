/** The bridge's serial framing. Each packet is sent between a 0 and a 192; those two bytes and the escape
    byte 219 are replaced inside it by 219 and the byte plus one. */
module UsbBridge {
  newtype byte = x: int | 0 <= x < 256

  const LL_HEADER_SIZE := 12
  const LL_PAYLOAD_SIZE := 64
  const LL_TAIL_SIZE := 2

  const BEGIN: byte := 0
  const END: byte := 192
  const ESCAPE: byte := 219

  /** The receive buffers at one call of Particle2USB. The payload length is whatever the radio layer reports. */
  datatype Call = Call(header: seq<byte>, payload: seq<byte>, tail: seq<byte>, length: byte)

  ghost predicate Sized(c: Call) {
    |c.header| == LL_HEADER_SIZE && |c.payload| == LL_PAYLOAD_SIZE && |c.tail| == LL_TAIL_SIZE
  }

  // ---------------------------------------------------------------- specification

  predicate Special(c: byte) {
    c == BEGIN || c == END || c == ESCAPE
  }

  function Escaped(s: seq<byte>): seq<byte> {
    if s == [] then [] else Escaped(s[..|s| - 1]) + EscapedByte(s[|s| - 1])
  }

  function EscapedByte(c: byte): seq<byte> {
    if Special(c) then [ESCAPE, c + 1] else [c]
  }

  /** The packet of a call that fits. */
  function Packet(c: Call): seq<byte>
    requires Sized(c) && c.length as int <= LL_PAYLOAD_SIZE
  {
    c.header + c.payload[..c.length] + c.tail
  }

  /** What a call puts on the line: an oversize length is noticed after the header. */
  function Sent(c: Call): seq<byte>
    requires Sized(c)
  {
    if c.length as int > LL_PAYLOAD_SIZE then [BEGIN] + Escaped(c.header)
    else [BEGIN] + Escaped(Packet(c)) + [END]
  }

  function Line(calls: seq<Call>): seq<byte>
    requires forall i :: 0 <= i < |calls| ==> Sized(calls[i])
  {
    if calls == [] then [] else Sent(calls[0]) + Line(calls[1..])
  }

  /** The packets of the calls that were completed. */
  function Completed(calls: seq<Call>): seq<seq<byte>>
    requires forall i :: 0 <= i < |calls| ==> Sized(calls[i])
  {
    if calls == [] then []
    else (if calls[0].length as int <= LL_PAYLOAD_SIZE then [Packet(calls[0])] else []) + Completed(calls[1..])
  }

  // ---------------------------------------------------------------- a receiver

  datatype Receiver = Idle | Inside(got: seq<byte>) | Escaping(got: seq<byte>)

  function Take(r: Receiver, b: byte): Receiver {
    if b == BEGIN then Inside([])
    else match r
      case Idle => Idle
      case Inside(got) => if b == END then Idle else if b == ESCAPE then Escaping(got) else Inside(got + [b])
      case Escaping(got) => Inside(got + [b - 1])
  }

  function Delivers(r: Receiver, b: byte): seq<seq<byte>> {
    if b == END && r.Inside? then [r.got] else []
  }

  function TakeAll(r: Receiver, s: seq<byte>): Receiver
    decreases s
  {
    if s == [] then r else TakeAll(Take(r, s[0]), s[1..])
  }

  /** The packets delivered, in order. */
  function Delivered(r: Receiver, s: seq<byte>): seq<seq<byte>>
    decreases s
  {
    if s == [] then [] else Delivers(r, s[0]) + Delivered(Take(r, s[0]), s[1..])
  }

  lemma {:induction false} TakeSplit(r: Receiver, s: seq<byte>, t: seq<byte>)
    ensures TakeAll(r, s + t) == TakeAll(TakeAll(r, s), t)
    ensures Delivered(r, s + t) == Delivered(r, s) + Delivered(TakeAll(r, s), t)
    decreases s
  {
    if s == [] {
      assert s + t == t;
    } else {
      assert (s + t)[0] == s[0] && (s + t)[1..] == s[1..] + t;
      TakeSplit(Take(r, s[0]), s[1..], t);
    }
  }

  lemma TakeEscapedByte(got: seq<byte>, c: byte)
    ensures TakeAll(Inside(got), EscapedByte(c)) == Inside(got + [c])
    ensures Delivered(Inside(got), EscapedByte(c)) == []
  {
    if Special(c) {
      var e := EscapedByte(c);
      assert e[1..] == [c + 1] && e[1..][1..] == [];
      assert Take(Take(Inside(got), e[0]), e[1]) == Inside(got + [c]);
      assert TakeAll(Take(Inside(got), e[0]), e[1..]) == Inside(got + [c]);
      assert Delivered(Take(Inside(got), e[0]), e[1..]) == [];
    }
  }

  /** Escaping is undone, whatever the bytes. */
  lemma {:induction false} TakeEscaped(s: seq<byte>)
    ensures TakeAll(Inside([]), Escaped(s)) == Inside(s)
    ensures Delivered(Inside([]), Escaped(s)) == []
  {
    if s != [] {
      var t, c := s[..|s| - 1], s[|s| - 1];
      TakeEscaped(t);
      TakeSplit(Inside([]), Escaped(t), EscapedByte(c));
      TakeEscapedByte(t, c);
      assert t + [c] == s;
    }
  }

  /** Whatever state the receiver was in, one call makes it deliver that call's packet if it was completed. */
  lemma TakeSent(r: Receiver, c: Call)
    requires Sized(c)
    ensures Delivered(r, Sent(c)) == if c.length as int <= LL_PAYLOAD_SIZE then [Packet(c)] else []
  {
    var body := if c.length as int <= LL_PAYLOAD_SIZE then Packet(c) else c.header;
    TakeEscaped(body);
    TakeSplit(r, [BEGIN], Escaped(body));
    assert Take(r, BEGIN) == Inside([]);
    assert Delivered(r, [BEGIN]) == [];
    if c.length as int <= LL_PAYLOAD_SIZE {
      TakeSplit(r, [BEGIN] + Escaped(body), [END]);
      assert Delivered(Inside(body), [END]) == [body];
    }
  }

  /** Resynchronisation: from any state of the receiver, and whichever calls were cut short, exactly the
      completed packets are delivered, in order. */
  lemma {:induction false} DeliversExactlyCompleted(r: Receiver, calls: seq<Call>)
    requires forall i :: 0 <= i < |calls| ==> Sized(calls[i])
    ensures Delivered(r, Line(calls)) == Completed(calls)
    decreases calls
  {
    if calls != [] {
      TakeSent(r, calls[0]);
      TakeSplit(r, Sent(calls[0]), Line(calls[1..]));
      DeliversExactlyCompleted(TakeAll(r, Sent(calls[0])), calls[1..]);
    }
  }

  /** The line in numbers: 0, 192 and 219 are sent as two bytes, every other byte as itself; a packet is sent between
      0 and 192, and of a payload longer than 64 bytes only a 0 and the header. */
  lemma InNumbers(c: Call)
    requires Sized(c)
    ensures |c.header| == 12 && |c.payload| == 64 && |c.tail| == 2
    ensures Escaped([0]) == [219, 1] && Escaped([192]) == [219, 193] && Escaped([219]) == [219, 220]
    ensures forall b: byte :: b != 0 && b != 192 && b != 219 ==> Escaped([b]) == [b]
    ensures c.length <= 64 ==> Sent(c) == [0] + Escaped(c.header + c.payload[..c.length] + c.tail) + [192]
    ensures c.length > 64 ==> Sent(c) == [0] + Escaped(c.header)
  {
    forall b: byte
      ensures Escaped([b]) == EscapedByte(b)
    {
      assert [b][..0] == [];
    }
  }

  /** The begin byte does not occur inside what is sent after it. */
  lemma {:induction false} NoBegin(s: seq<byte>)
    ensures BEGIN !in Escaped(s) && END !in Escaped(s)
  {
    if s != [] {
      NoBegin(s[..|s| - 1]);
    }
  }

  lemma {:induction false} IdleSkips(s: seq<byte>)
    requires BEGIN !in s
    ensures TakeAll(Idle, s) == Idle && Delivered(Idle, s) == []
  {
    if s != [] {
      IdleSkips(s[1..]);
    }
  }

  /** How many of the calls began before byte k of the line. */
  function Missed(calls: seq<Call>, k: nat): (n: nat)
    requires forall i :: 0 <= i < |calls| ==> Sized(calls[i])
    ensures n <= |calls|
  {
    if calls == [] || k == 0 then 0
    else 1 + if k <= |Sent(calls[0])| then 0 else Missed(calls[1..], k - |Sent(calls[0])|)
  }

  lemma SkipsRest(c: Call, k: nat)
    requires Sized(c) && 0 < k <= |Sent(c)|
    ensures TakeAll(Idle, Sent(c)[k..]) == Idle && Delivered(Idle, Sent(c)[k..]) == []
  {
    var body := if c.length as int <= LL_PAYLOAD_SIZE then Packet(c) else c.header;
    NoBegin(body);
    var rest := Sent(c)[1..];
    assert rest == Escaped(body) || rest == Escaped(body) + [END];
    assert Sent(c)[k..] == rest[k - 1..];
    IdleSkips(rest[k - 1..]);
  }

  lemma DropWithin<T>(a: seq<T>, b: seq<T>, k: nat)
    requires k <= |a| + |b|
    ensures (a + b)[k..] == if k <= |a| then a[k..] + b else b[k - |a|..]
  {
  }

  lemma DropDrop<T>(s: seq<T>, m: nat, n: nat)
    requires m + n <= |s|
    ensures s[m..][n..] == s[m + n..]
  {
  }

  /** A receiver that starts to listen at byte k, anywhere inside a packet, delivers exactly the completed
      packets of the calls that begin from there on. */
  lemma {:induction false} JoinsAnywhere(calls: seq<Call>, k: nat)
    requires forall i :: 0 <= i < |calls| ==> Sized(calls[i])
    requires k <= |Line(calls)|
    ensures Delivered(Idle, Line(calls)[k..]) == Completed(calls[Missed(calls, k)..])
  {
    if calls == [] || k == 0 {
      assert Line(calls)[k..] == Line(calls) && calls[0..] == calls;
      DeliversExactlyCompleted(Idle, calls);
    } else {
      var first, rest := Sent(calls[0]), Line(calls[1..]);
      DropWithin(first, rest, k);
      if k <= |first| {
        SkipsRest(calls[0], k);
        TakeSplit(Idle, first[k..], rest);
        DeliversExactlyCompleted(Idle, calls[1..]);
      } else {
        var n := Missed(calls[1..], k - |first|);
        JoinsAnywhere(calls[1..], k - |first|);
        DropDrop(calls, 1, n);
      }
    }
  }

  // ---------------------------------------------------------------- the code

  /** The bridge's receive buffers, and the bytes it has put on the line. */
  class Bridge {
    const LL_header_received: array<byte>
    const LL_payload_received: array<byte>
    const LL_tail_received: array<byte>
    var payload_length: byte
    var uart: seq<byte>

    constructor ()
      ensures Valid() && uart == []
      ensures LL_header_received.Length == 12 && LL_payload_received.Length == 64 && LL_tail_received.Length == 2
      ensures fresh(LL_header_received) && fresh(LL_payload_received) && fresh(LL_tail_received)
    {
      LL_header_received := new byte[LL_HEADER_SIZE];
      LL_payload_received := new byte[LL_PAYLOAD_SIZE];
      LL_tail_received := new byte[LL_TAIL_SIZE];
      payload_length := 0;
      uart := [];
    }

    ghost predicate Valid() {
      && LL_header_received.Length == LL_HEADER_SIZE
      && LL_payload_received.Length == LL_PAYLOAD_SIZE
      && LL_tail_received.Length == LL_TAIL_SIZE
    }

    ghost function Now(): (c: Call)
      requires Valid()
      reads this, LL_header_received, LL_payload_received, LL_tail_received
      ensures Sized(c)
    {
      Call(LL_header_received[..], LL_payload_received[..], LL_tail_received[..], payload_length)
    }

    method Uart1SendByte(c: byte)
      modifies this`uart
      ensures uart == old(uart) + [c]
    {
      uart := uart + [c];
    }

    /** The loop that sends the first n bytes of a buffer. */
    method SendEscaped(buffer: array<byte>, n: nat)
      requires n <= buffer.Length
      modifies this`uart
      ensures uart == old(uart) + Escaped(buffer[..n])
    {
      var i := 0;
      while i < n
        invariant i <= n
        invariant uart == old(uart) + Escaped(buffer[..i])
      {
        assert buffer[..i + 1][..i] == buffer[..i];
        var c := buffer[i];
        if c == 0 || c == 192 || c == 219 {
          Uart1SendByte(219);
          c := c + 1;
        }
        Uart1SendByte(c);
        i := i + 1;
      }
    }

    method Particle2USB()
      requires Valid()
      modifies this`uart
      ensures uart == old(uart) + Sent(Now())
    {
      ghost var line, c := uart, Now();
      Whole(line, c);
      Uart1SendByte(0);
      SendEscaped(LL_header_received, LL_HEADER_SIZE);
      assert LL_header_received[..LL_HEADER_SIZE] == c.header;
      var n := payload_length;
      if n as int > LL_PAYLOAD_SIZE {
        return;
      }
      SendEscaped(LL_payload_received, n as nat);
      SendEscaped(LL_tail_received, LL_TAIL_SIZE);
      assert LL_payload_received[..n] == c.payload[..n];
      assert LL_tail_received[..LL_TAIL_SIZE] == c.tail;
      Uart1SendByte(192);
    }
  }

  lemma Whole(line: seq<byte>, c: Call)
    requires Sized(c)
    ensures if c.length as int > LL_PAYLOAD_SIZE then line + Sent(c) == line + [0] + Escaped(c.header)
            else line + Sent(c) == line + [0] + Escaped(c.header) + Escaped(c.payload[..c.length]) + Escaped(c.tail) + [192]
  {
    if c.length as int <= LL_PAYLOAD_SIZE {
      EscapedPieces(c.header, c.payload[..c.length], c.tail);
    }
  }

  lemma {:induction false} EscapedConcat(s: seq<byte>, t: seq<byte>)
    ensures Escaped(s + t) == Escaped(s) + Escaped(t)
  {
    if t == [] {
      assert s + t == s;
    } else {
      var u := t[..|t| - 1];
      assert (s + t)[..|s + t| - 1] == s + u;
      EscapedConcat(s, u);
    }
  }

  lemma EscapedPieces(a: seq<byte>, b: seq<byte>, c: seq<byte>)
    ensures Escaped(a + b + c) == Escaped(a) + Escaped(b) + Escaped(c)
  {
    EscapedConcat(a + b, c);
    EscapedConcat(a, b);
  }

  lemma {:induction false} LineOneMore(calls: seq<Call>, c: Call)
    requires Sized(c) && forall i :: 0 <= i < |calls| ==> Sized(calls[i])
    ensures Line(calls + [c]) == Line(calls) + Sent(c)
  {
    if calls == [] {
      assert [c][1..] == [];
    } else {
      assert (calls + [c])[1..] == calls[1..] + [c];
      LineOneMore(calls[1..], c);
    }
  }

  lemma LineNext(calls: seq<Call>, k: nat)
    requires k < |calls| && forall i :: 0 <= i < |calls| ==> Sized(calls[i])
    ensures Line(calls[..k + 1]) == Line(calls[..k]) + Sent(calls[k])
  {
    assert calls[..k + 1] == calls[..k] + [calls[k]];
    LineOneMore(calls[..k], calls[k]);
  }

  ghost predicate Separate(bridge: Bridge) {
    && bridge.LL_header_received != bridge.LL_payload_received
    && bridge.LL_header_received != bridge.LL_tail_received
    && bridge.LL_payload_received != bridge.LL_tail_received
  }

  /** The radio layer receives a packet into the buffers. */
  method Receive(bridge: Bridge, c: Call)
    requires bridge.Valid() && Separate(bridge) && Sized(c)
    modifies bridge`payload_length, bridge.LL_header_received, bridge.LL_payload_received, bridge.LL_tail_received
    ensures bridge.Now() == c
  {
    forall i | 0 <= i < LL_HEADER_SIZE { bridge.LL_header_received[i] := c.header[i]; }
    forall i | 0 <= i < LL_PAYLOAD_SIZE { bridge.LL_payload_received[i] := c.payload[i]; }
    forall i | 0 <= i < LL_TAIL_SIZE { bridge.LL_tail_received[i] := c.tail[i]; }
    bridge.payload_length := c.length;
  }

  /** A bridge on which calls are made one after the other, and a receiver in any state behind it. */
  method Run(bridge: Bridge, received: seq<Call>, ghost r: Receiver)
    requires bridge.Valid() && Separate(bridge) && bridge.uart == []
    requires forall i :: 0 <= i < |received| ==> Sized(received[i])
    modifies bridge, bridge.LL_header_received, bridge.LL_payload_received, bridge.LL_tail_received
    ensures bridge.uart == Line(received) && Delivered(r, bridge.uart) == Completed(received)
  {
    for k := 0 to |received|
      invariant bridge.uart == Line(received[..k])
    {
      Receive(bridge, received[k]);
      bridge.Particle2USB();
      LineNext(received, k);
    }
    assert received[..|received|] == received;
    DeliversExactlyCompleted(r, received);
  }
}
