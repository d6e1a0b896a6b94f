/** The MPU6050 accelerometer and gyroscope driver (lib/MPU6050/MPU6050.c): one
    burst read of the fourteen measurement registers, started by Read and carried
    on by the RX-FIFO interrupt handler one byte at a time. */
module Mpu6050 {
  import opened Platform
  import opened Codec
  import opened Nbi

  /** Three accelerations, the temperature and three angular velocities. */
  const N_VALUES: nat := 7

  /** The last value of `state`: the low byte of the seventh value. */
  const LAST_STATE: nat := 2 * N_VALUES - 1

  const DA: nat := 0x68                  // the device address with A0 grounded
  const RA: Byte := 0x3B                 // register of the high byte of the X acceleration
  const ADDRESS_W: Byte := 0xD0          // (DA << 1) | WRITE
  const ADDRESS_R: Byte := 0xD1          // (DA << 1) | READ

  /** The filler byte of a read request; the device drives the data. */
  const FILL: Byte := 0xFF

  const START_NACK := Options(true, true, false, false)
  const NACK_ONLY := Options(false, true, false, false)
  const ACK_REPLY := Options(false, false, true, false)
  const NACK_REPLY_STOP := Options(false, true, true, true)

  /** The address bytes are the device address followed by the R/W bit. */
  lemma AddressBytes()
    ensures ADDRESS_W == AddressByte(DA, Write) && ADDRESS_R == AddressByte(DA, Read)
    ensures ADDRESS_W >> 1 == ADDRESS_R >> 1 == DA as Byte
  {
  }

  /** One uint16_t register value. */
  newtype U16 = x: int | 0 <= x < 0x1_0000

  /** The value of a register pair, (high << 8) | low: the high byte is the
      quotient by 256 and the low byte the remainder. */
  function Combine(high: Byte, low: Byte): (w: U16)
    ensures w as int / 256 == high as int && w as int % 256 == low as int
  {
    (high as int * 256 + low as int) as U16
  }

  /** Two register pairs give the same value only when they are equal. */
  lemma CombineInjective(h1: Byte, l1: Byte, h2: Byte, l2: Byte)
    requires Combine(h1, l1) == Combine(h2, l2)
    ensures h1 == h2 && l1 == l2
  {
    assert h1 as int == h2 as int && l1 as int == l2 as int;
  }

  /** The (int16_t) cast of the accessors: two's complement reinterpretation. */
  function Signed16(d: U16): (v: int)
    ensures -0x8000 <= v < 0x8000
    ensures v % 0x1_0000 == d as int
    ensures v < 0 <==> d >= 0x8000
  {
    if d >= 0x8000 then d as int - 0x1_0000 else d as int
  }

  /** The (uint16_t) cast back: the value modulo 2^16. */
  function Unsigned16(v: int): (d: U16)
    ensures d as int % 0x1_0000 == v % 0x1_0000
  {
    (v % 0x1_0000) as U16
  }

  /** The two casts are inverse on the int16 range. */
  lemma SignedRoundTrip(d: U16, v: int)
    ensures Unsigned16(Signed16(d)) == d
    ensures -0x8000 <= v < 0x8000 ==> Signed16(Unsigned16(v)) == v
  {
  }

  /** The driver's registers: the transfer position, the two byte latches and the
      seven values. */
  datatype Regs = Regs(state: nat, high: Byte, low: Byte, data: seq<U16>)

  ghost predicate WellRegs(r: Regs)
  {
    r.state <= LAST_STATE && |r.data| == N_VALUES
  }

  /** What one handler invocation leaves behind: the registers and its effects. */
  datatype Reaction = Reaction(regs: Regs, out: seq<Effect>)

  /** The completion of a read: RX interrupts off, then the action function if set. */
  function Completion(hasAction: bool): seq<Effect>
  {
    [Disarm] + (if hasAction then [Callback] else [])
  }

  /** handler, given the byte the RX FIFO delivers: latch it as the high or the low
      byte of value state/2, combining the pair on the low byte, then request the
      next byte, the last one with STOP, or complete the read. */
  function HandlerStep(r: Regs, got: Byte, hasAction: bool): (s: Reaction)
    requires WellRegs(r)
    ensures WellRegs(s.regs)
  {
    var j, k := r.state / 2, r.state % 2;
    var latched := if k == 0 then r.(high := got) else r.(low := got, data := r.data[j := Combine(r.high, got)]);
    if j == N_VALUES - 1 then
      if k == 0 then Reaction(latched.(state := r.state + 1), [Send(FILL, NACK_REPLY_STOP)])
      else Reaction(latched, Completion(hasAction))
    else Reaction(latched.(state := r.state + 1), [Send(FILL, ACK_REPLY)])
  }

  /** The byte latches and the values: an even state latches the high byte and
      keeps every value; an odd state stores Combine(high, got) in slot state/2,
      which is below N_VALUES, and keeps every other slot. */
  lemma StepStores(r: Regs, got: Byte, hasAction: bool)
    requires WellRegs(r)
    ensures var s := HandlerStep(r, got, hasAction).regs;
      && r.state / 2 < N_VALUES
      && (r.state % 2 == 0 ==> s.high == got && s.low == r.low && s.data == r.data)
      && (r.state % 2 == 1 ==>
            s.high == r.high && s.low == got && s.data == r.data[r.state / 2 := Combine(r.high, got)])
  {
  }

  /** The position and the effects: below LAST_STATE the handler advances by one and
      requests one more byte, with STOP on the request made at LAST_STATE - 1; at
      LAST_STATE it stays there, sends nothing and completes the read. */
  lemma StepAdvances(r: Regs, got: Byte, hasAction: bool)
    requires WellRegs(r)
    ensures var s := HandlerStep(r, got, hasAction);
      && (r.state < LAST_STATE ==> s.regs.state == r.state + 1)
      && (r.state < LAST_STATE - 1 ==> s.out == [Send(FILL, ACK_REPLY)])
      && (r.state == LAST_STATE - 1 ==> s.out == [Send(FILL, NACK_REPLY_STOP)])
      && (r.state == LAST_STATE ==> s.regs.state == LAST_STATE && s.out == Completion(hasAction))
  {
  }

  /** The driver's static variables, with the transport it uses. */
  class AccGyro {
    const bus: Transport
    const data: array<U16>             // data[N_VALUES]
    var chan: nat                      // the_chan
    var action: Option<CallbackId>     // the_action
    var invoked: seq<CallbackId>       // the action functions called, in order
    var high: Byte
    var low: Byte
    var state: nat

    ghost predicate Valid()
      reads this, bus, bus.chnls, data
    {
      bus.Valid() && chan < NMAX_CHNLS && data.Length == N_VALUES && state <= LAST_STATE
    }

    function Snapshot(): Regs
      reads this, data
    {
      Regs(state, high, low, data[..])
    }

    /** The zero-initialised statics. */
    constructor (bus: Transport)
      requires bus.Valid()
      ensures Valid() && this.bus == bus && fresh(data)
      ensures chan == 0 && action == None && invoked == []
      ensures Snapshot() == Regs(0, 0, 0, seq(N_VALUES, _ => 0))
    {
      this.bus := bus;
      data := new U16[N_VALUES](_ => 0);
      chan, action, invoked := 0, None, [];
      high, low, state := 0, 0, 0;
    }

    /** acc_gyro_init: records the channel, clears the action function and binds the
        RX handler, which panics when one is already bound or the channel is not on
        PIO 0. */
    method Init(chnl: nat) returns (status: Status)
      requires Valid() && chnl < NMAX_CHNLS
      modifies this`chan, this`action, bus, bus.chnls
      ensures Valid() && chan == chnl && action == None
      ensures status.Ok? <==> old(bus.irqRx) == UNALLOCATED && chnl < SMS_PER_PIO
      ensures status.Ok? ==> bus.irqRx == RX_FIFO_IRQ && bus.chnls[chnl] == old(bus.chnls[chnl]).(rxIrq := RX_FIFO_IRQ)
      ensures status.Panic? ==> bus.irqRx == old(bus.irqRx)
      ensures forall k :: 0 <= k < NMAX_CHNLS && (status.Panic? || k != chnl) ==> bus.chnls[k] == old(bus.chnls[k])
      ensures bus.tx == old(bus.tx) && bus.rx == old(bus.rx)
      ensures bus.txEnabled == old(bus.txEnabled) && bus.rxEnabled == old(bus.rxEnabled)
      ensures bus.next == old(bus.next) && bus.laneRate == old(bus.laneRate) && bus.irqTx == old(bus.irqTx)
    {
      chan := chnl;
      action := None;
      assert chnl / SMS_PER_PIO == 0 <==> chnl < SMS_PER_PIO;
      status := bus.SetRxHandler(chan);
    }

    /** acc_gyro_set_action. */
    method SetAction(a: Option<CallbackId>)
      modifies this`action
      ensures action == a
    {
      action := a;
    }

    /** nbi_send on this driver's channel. */
    method Emit(d: Byte, o: Options)
      requires bus.Valid() && chan < NMAX_CHNLS
      modifies bus
      ensures bus.Valid()
      ensures bus.tx == old(bus.tx)[chan := old(bus.tx[chan]) + Words([Send(d, o)])]
      ensures bus.rx == old(bus.rx) && bus.txEnabled == old(bus.txEnabled) && bus.rxEnabled == old(bus.rxEnabled)
      ensures bus.Setup() == old(bus.Setup())
    {
      bus.Send(chan, d, o);
      WordsSingle(Send(d, o));
    }

    /** acc_gyro_read: addresses the register with a write transfer, turns it round
        with a repeated START and a read address, requests the first byte, and arms
        the RX interrupt from state 0; arming panics while no RX handler is bound. */
    method Read() returns (status: Status)
      requires Valid()
      modifies this`state, bus
      ensures Valid() && state == 0
      ensures bus.tx == old(bus.tx)[chan := old(bus.tx[chan]) + Words(Opening())]
      ensures status.Ok? <==> old(bus.irqRx) >= 0
      ensures bus.rxEnabled == if status.Ok? then old(bus.rxEnabled)[chan := true] else old(bus.rxEnabled)
      ensures bus.rx == old(bus.rx) && bus.txEnabled == old(bus.txEnabled) && bus.Setup() == old(bus.Setup())
    {
      ghost var t0 := bus.tx[chan];
      Emit(ADDRESS_W, START_NACK);
      Emit(RA, NACK_ONLY);
      Emit(ADDRESS_R, START_NACK);
      Emit(FILL, ACK_REPLY);
      OpeningWords();
      assert bus.tx[chan] == t0 + Words(Opening());
      state := 0;
      status := bus.EnableRx(chan, true);
    }

    /** What one call of handler does, from the state before the call to the state
        after it: exactly what HandlerStep computes for the byte at the head of the
        RX FIFO, which it consumes. */
    twostate predicate Handled()
      requires old(Valid()) && old(bus.rx[chan]) != []
      reads this, bus, data
    {
      var got := DecodeResponse(old(bus.rx[chan][0])).data;
      var s := HandlerStep(old(Snapshot()), got, old(action).Some?);
      && chan == old(chan) && action == old(action)
      && Snapshot() == s.regs
      && bus.tx == old(bus.tx)[chan := old(bus.tx[chan]) + Words(s.out)]
      && bus.rx == old(bus.rx)[chan := old(bus.rx[chan])[1..]]
      && bus.rxEnabled == (if Disarm in s.out then old(bus.rxEnabled)[chan := false] else old(bus.rxEnabled))
      && invoked == old(invoked) + (if Callback in s.out then [old(action).value] else [])
      && bus.txEnabled == old(bus.txEnabled) && bus.Setup() == old(bus.Setup())
    }

    /** handler: one RX-FIFO-not-empty interrupt, delivered while the channel's RX
        source is enabled. */
    method Handler()
      requires Valid() && bus.rxEnabled[chan] && bus.rx[chan] != []
      modifies this`state, this`high, this`low, this`invoked, data, bus
      ensures Valid() && Handled()
    {
      var j, k := state / 2, state % 2;
      var got, ack := bus.Receive(chan);
      ghost var s := HandlerStep(Snapshot(), got, action.Some?);
      Latch(got);
      if j == N_VALUES - 1 && k == 1 {
        Complete();
        assert s.out == Completion(action.Some?);
        WordsNoSends(s.out);
        assert old(bus.tx[chan]) + [] == old(bus.tx[chan]);
        assert old(bus.tx)[chan := old(bus.tx[chan])] == old(bus.tx);
      } else {
        assert s.out == FollowUp(old(state));
        RequestNext();
      }
    }

    /** The first half of handler: the received byte goes to high or to low, and the
        low byte completes value state/2. */
    method Latch(got: Byte)
      requires data.Length == N_VALUES && state <= LAST_STATE
      modifies this`high, this`low, data
      ensures var r := old(Snapshot());
        var s := HandlerStep(r, got, false).regs;
        high == s.high && low == s.low && data[..] == s.data
    {
      var j, k := state / 2, state % 2;
      if k == 0 {
        high := got;
      } else {
        low := got;
        data[j] := Combine(high, low);
      }
    }

    /** The second half of handler before LAST_STATE: request the next byte, with
        STOP on the last one, and advance. */
    method RequestNext()
      requires bus.Valid() && chan < NMAX_CHNLS && state < LAST_STATE
      modifies this`state, bus
      ensures state == old(state) + 1
      ensures bus.Valid()
      ensures bus.tx == old(bus.tx)[chan := old(bus.tx[chan]) + Words(FollowUp(old(state)))]
      ensures bus.rx == old(bus.rx) && bus.txEnabled == old(bus.txEnabled) && bus.rxEnabled == old(bus.rxEnabled)
      ensures bus.Setup() == old(bus.Setup())
    {
      if state / 2 == N_VALUES - 1 {
        Emit(FILL, NACK_REPLY_STOP);
      } else {
        Emit(FILL, ACK_REPLY);
      }
      state := state + 1;
    }

    /** The second half of handler at LAST_STATE: disarm RX interrupts and call the
        action function if one is set. */
    method Complete()
      requires bus.Valid() && chan < NMAX_CHNLS && bus.rxEnabled[chan]
      modifies this`invoked, bus
      ensures bus.Valid()
      ensures bus.rxEnabled == old(bus.rxEnabled)[chan := false]
      ensures invoked == old(invoked) + (if action.Some? then [action.value] else [])
      ensures bus.tx == old(bus.tx) && bus.rx == old(bus.rx) && bus.txEnabled == old(bus.txEnabled)
      ensures bus.Setup() == old(bus.Setup())
    {
      var status := bus.EnableRx(chan, false);
      if action.Some? {
        invoked := invoked + [action.value];
      }
    }

    /** acc_gyro_get_aX: value 0 as a signed 16-bit reading. */
    function AX(): (v: int)
      reads this, data
      requires data.Length == N_VALUES
      ensures -0x8000 <= v < 0x8000 && v % 0x1_0000 == data[0] as int
    {
      Signed16(data[0])
    }

    /** acc_gyro_get_aY: value 1 as a signed 16-bit reading. */
    function AY(): (v: int)
      reads this, data
      requires data.Length == N_VALUES
      ensures -0x8000 <= v < 0x8000 && v % 0x1_0000 == data[1] as int
    {
      Signed16(data[1])
    }

    /** acc_gyro_get_aZ: value 2 as a signed 16-bit reading. */
    function AZ(): (v: int)
      reads this, data
      requires data.Length == N_VALUES
      ensures -0x8000 <= v < 0x8000 && v % 0x1_0000 == data[2] as int
    {
      Signed16(data[2])
    }

    /** acc_gyro_get_wZ: value 6 as a signed 16-bit reading. */
    function WZ(): (v: int)
      reads this, data
      requires data.Length == N_VALUES
      ensures -0x8000 <= v < 0x8000 && v % 0x1_0000 == data[6] as int
    {
      Signed16(data[6])
    }
  }

  /** The four records acc_gyro_read pushes. */
  function Opening(): seq<Effect>
  {
    [Send(ADDRESS_W, START_NACK), Send(RA, NACK_ONLY), Send(ADDRESS_R, START_NACK), Send(FILL, ACK_REPLY)]
  }

  lemma OpeningWords()
    ensures Words(Opening()) == Words([Send(ADDRESS_W, START_NACK)]) + Words([Send(RA, NACK_ONLY)])
                              + Words([Send(ADDRESS_R, START_NACK)]) + Words([Send(FILL, ACK_REPLY)])
  {
    var o := Opening();
    WordsAppend([o[0]], o[1..]);
    WordsAppend([o[1]], o[2..]);
    WordsAppend([o[2]], o[3..]);
    assert o == [o[0]] + o[1..] && o[1..] == [o[1]] + o[2..] && o[2..] == [o[2]] + o[3..] && o[3..] == [o[3]];
  }

  /** The request the handler sends below LAST_STATE. */
  function FollowUp(state: nat): seq<Effect>
  {
    if state / 2 == N_VALUES - 1 then [Send(FILL, NACK_REPLY_STOP)] else [Send(FILL, ACK_REPLY)]
  }
}
