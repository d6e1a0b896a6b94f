/** The non-blocking I2C transport (lib/nbi.c): a registry of channels, each one a
    PIO state machine, with that state machine's TX and RX FIFOs and the FIFO
    interrupt sources of PIO 0. */
module Nbi {
  import opened Platform
  import opened Codec

  const NMAX_CHNLS: nat := 12     // three PIO blocks of four state machines
  const SMS_PER_PIO: nat := 4
  const UNALLOCATED: int := -1

  /** The IRQ lines of PIO 0 for its irq0 (TX FIFO) and irq1 (RX FIFO) sources, as
      the SDK reports them on the target. */
  const TX_FIFO_IRQ: int := 15
  const RX_FIFO_IRQ: int := 16

  datatype Speed = Standard | Fast | FastPlus

  /** i2c_bit_rates: the bit rate of each speed class, in bit/s. */
  function BitRate(speed: Speed): nat
  {
    match speed
    case Standard => 100_000
    case Fast => 400_000
    case FastPlus => 1_000_000
  }

  /** channel_t: one entry of the channel table. */
  datatype Channel = Channel(sda: nat, speed: Speed, pio: nat, sm: nat, txIrq: int, rxIrq: int)

  /** The all-zero entry a static table starts with. */
  const ZERO_CHANNEL := Channel(0, Standard, 0, 0, 0, 0)

  /** What a driver's interrupt step does to the transport, in order. */
  datatype Effect = Send(data: Byte, opts: Options) | Disarm | Callback

  /** The command words a list of effects pushes, in order. */
  function Words(out: seq<Effect>): (ws: seq<Word>)
    ensures |ws| <= |out|
  {
    if out == [] then []
    else (if out[0].Send? then [Encode(out[0].data, out[0].opts)] else []) + Words(out[1..])
  }

  lemma {:induction false} WordsAppend(a: seq<Effect>, b: seq<Effect>)
    ensures Words(a + b) == Words(a) + Words(b)
  {
    if a == [] {
      assert a + b == b;
    } else {
      assert (a + b)[1..] == a[1..] + b;
      WordsAppend(a[1..], b);
    }
  }

  lemma WordsSingle(e: Effect)
    ensures Words([e]) == if e.Send? then [Encode(e.data, e.opts)] else []
  {
    assert [e][1..] == [];
  }

  /** Effects other than sends push nothing. */
  lemma {:induction false} WordsNoSends(out: seq<Effect>)
    requires forall k :: 0 <= k < |out| ==> !out[k].Send?
    ensures Words(out) == []
  {
    if out != [] {
      WordsNoSends(out[1..]);
    }
  }

  class Transport {
    const chnls: array<Channel>
    var next: nat                  // next_chnl_num
    var laneRate: seq<nat>         // bit rate each state machine was configured for
    var tx: seq<seq<Word>>         // TX FIFO of each state machine, oldest first
    var rx: seq<seq<Word>>         // RX FIFO of each state machine, oldest first
    var irqTx: int                 // irq_TX_FIFO
    var irqRx: int                 // irq_RX_FIFO
    var txEnabled: seq<bool>       // TX-not-full interrupt source of each state machine
    var rxEnabled: seq<bool>       // RX-not-empty interrupt source of each state machine

    ghost predicate Valid()
      reads this, chnls
    {
      && chnls.Length == NMAX_CHNLS
      && next <= NMAX_CHNLS
      && |laneRate| == NMAX_CHNLS
      && |tx| == NMAX_CHNLS && |rx| == NMAX_CHNLS
      && |txEnabled| == NMAX_CHNLS && |rxEnabled| == NMAX_CHNLS
      && (irqTx == UNALLOCATED || irqTx == TX_FIFO_IRQ)
      && (irqRx == UNALLOCATED || irqRx == RX_FIFO_IRQ)
      && (irqTx == UNALLOCATED ==> forall k :: 0 <= k < NMAX_CHNLS ==> !txEnabled[k])
      && (irqRx == UNALLOCATED ==> forall k :: 0 <= k < NMAX_CHNLS ==> !rxEnabled[k])
      && (forall n :: 0 <= n < next ==> chnls[n].pio == n / SMS_PER_PIO && chnls[n].sm == n % SMS_PER_PIO)
    }

    /** The fields that only channel creation and handler binding change. */
    ghost function Setup(): (nat, seq<nat>, int, int)
      reads this
    {
      (next, laneRate, irqTx, irqRx)
    }

    /** The state at reset: an all-zero table, empty FIFOs, nothing bound or enabled. */
    constructor ()
      ensures Valid() && fresh(chnls)
      ensures next == 0 && irqTx == UNALLOCATED && irqRx == UNALLOCATED
      ensures forall n :: 0 <= n < NMAX_CHNLS ==> chnls[n] == ZERO_CHANNEL
      ensures laneRate == seq(NMAX_CHNLS, _ => 0)
      ensures tx == seq(NMAX_CHNLS, _ => []) && rx == seq(NMAX_CHNLS, _ => [])
      ensures txEnabled == seq(NMAX_CHNLS, _ => false) && rxEnabled == seq(NMAX_CHNLS, _ => false)
    {
      chnls := new Channel[NMAX_CHNLS](_ => ZERO_CHANNEL);
      next := 0;
      laneRate := seq(NMAX_CHNLS, _ => 0);
      tx := seq(NMAX_CHNLS, _ => []);
      rx := seq(NMAX_CHNLS, _ => []);
      irqTx, irqRx := UNALLOCATED, UNALLOCATED;
      txEnabled := seq(NMAX_CHNLS, _ => false);
      rxEnabled := seq(NMAX_CHNLS, _ => false);
    }

    /** nbi_create_channel: takes the next state machine in sequence and records the
        channel in the table; the thirteenth request panics. */
    method CreateChannel(sda: nat, speed: Speed) returns (status: Status, n: nat)
      requires Valid()
      modifies this, chnls
      ensures Valid()
      ensures status.Ok? <==> old(next) < NMAX_CHNLS
      ensures status.Ok? ==> n == old(next) && next == old(next) + 1
      ensures status.Ok? ==> chnls[n] == Channel(sda, speed, n / SMS_PER_PIO, n % SMS_PER_PIO, UNALLOCATED, UNALLOCATED)
      ensures status.Ok? ==> forall k :: 0 <= k < NMAX_CHNLS && k != n ==> chnls[k] == old(chnls[k])
      ensures status.Ok? ==> laneRate == old(laneRate)[n := BitRate(speed)]
      ensures status.Panic? ==> next == old(next) && laneRate == old(laneRate) && chnls[..] == old(chnls[..])
      ensures tx == old(tx) && rx == old(rx) && txEnabled == old(txEnabled) && rxEnabled == old(rxEnabled)
      ensures irqTx == old(irqTx) && irqRx == old(irqRx)
    {
      n := next;
      if next + 1 > NMAX_CHNLS {
        status := Panic("No more channels can be allocated");
        return;
      }
      next := next + 1;
      var pioIndex := n / SMS_PER_PIO;
      var sm := n % SMS_PER_PIO;
      laneRate := laneRate[n := BitRate(speed)];
      chnls[n] := Channel(sda, speed, pioIndex, sm, UNALLOCATED, UNALLOCATED);
      status := Ok;
    }

    /** nbi_send: pushes the encoded record onto the channel's TX FIFO. */
    method Send(chnl: nat, data: Byte, o: Options)
      requires Valid() && chnl < NMAX_CHNLS
      modifies this
      ensures Valid()
      ensures tx == old(tx)[chnl := old(tx[chnl]) + [Encode(data, o)]]
      ensures rx == old(rx) && txEnabled == old(txEnabled) && rxEnabled == old(rxEnabled)
      ensures next == old(next) && laneRate == old(laneRate) && irqTx == old(irqTx) && irqRx == old(irqRx)
    {
      var rec := Encode(data, o);
      tx := tx[chnl := tx[chnl] + [rec]];
    }

    /** nbi_receive: pulls the oldest record of the channel's RX FIFO and decodes it.
        The hardware call blocks on an empty FIFO; here the FIFO must hold a word. */
    method Receive(chnl: nat) returns (data: Byte, ack: bool)
      requires Valid() && chnl < NMAX_CHNLS && rx[chnl] != []
      modifies this
      ensures Valid()
      ensures Response(data, ack) == DecodeResponse(old(rx[chnl][0]))
      ensures rx == old(rx)[chnl := old(rx[chnl])[1..]]
      ensures tx == old(tx) && txEnabled == old(txEnabled) && rxEnabled == old(rxEnabled)
      ensures next == old(next) && laneRate == old(laneRate) && irqTx == old(irqTx) && irqRx == old(irqRx)
    {
      var rec := rx[chnl][0];
      rx := rx[chnl := rx[chnl][1..]];
      var r := DecodeResponse(rec);
      data, ack := r.data, r.ack;
    }

    /** The bitstream engine's side of an RX FIFO: one response word arrives. */
    method Deliver(chnl: nat, w: Word)
      requires Valid() && chnl < NMAX_CHNLS
      modifies this
      ensures Valid()
      ensures rx == old(rx)[chnl := old(rx[chnl]) + [w]]
      ensures tx == old(tx) && txEnabled == old(txEnabled) && rxEnabled == old(rxEnabled)
      ensures next == old(next) && laneRate == old(laneRate) && irqTx == old(irqTx) && irqRx == old(irqRx)
    {
      rx := rx[chnl := rx[chnl] + [w]];
    }

    /** TX_FIFO_set_irq_handler: binds the one TX handler, for a channel of PIO 0. */
    method SetTxHandler(chnl: nat) returns (status: Status)
      requires Valid()
      modifies this, chnls
      ensures Valid()
      ensures status.Ok? <==> old(irqTx) == UNALLOCATED && chnl / SMS_PER_PIO == 0
      ensures status.Ok? ==> irqTx == TX_FIFO_IRQ && chnls[chnl].txIrq == TX_FIFO_IRQ
      ensures status.Ok? ==> chnls[chnl] == old(chnls[chnl]).(txIrq := TX_FIFO_IRQ)
      ensures status.Ok? ==> forall k :: 0 <= k < NMAX_CHNLS && k != chnl ==> chnls[k] == old(chnls[k])
      ensures status.Panic? ==> irqTx == old(irqTx) && chnls[..] == old(chnls[..])
      ensures tx == old(tx) && rx == old(rx) && txEnabled == old(txEnabled) && rxEnabled == old(rxEnabled)
      ensures next == old(next) && laneRate == old(laneRate) && irqRx == old(irqRx)
    {
      if irqTx >= 0 {
        return Panic("Only a single TX FIFO interrupt handler can presently be defined");
      }
      var pioIndex := chnl / SMS_PER_PIO;
      if pioIndex != 0 {
        return Panic("Interrupt handling is presently only available for channels 0 to 3");
      }
      irqTx := TX_FIFO_IRQ;
      chnls[chnl] := chnls[chnl].(txIrq := irqTx);
      status := Ok;
    }

    /** enable_tx_fifo_interrupts: toggles one state machine's TX source; panics
        while no TX handler is bound. */
    method EnableTx(chnl: nat, enable: bool) returns (status: Status)
      requires Valid() && chnl < NMAX_CHNLS
      modifies this
      ensures Valid()
      ensures status.Ok? <==> old(irqTx) >= 0
      ensures txEnabled == if status.Ok? then old(txEnabled)[chnl := enable] else old(txEnabled)
      ensures tx == old(tx) && rx == old(rx) && rxEnabled == old(rxEnabled)
      ensures next == old(next) && laneRate == old(laneRate) && irqTx == old(irqTx) && irqRx == old(irqRx)
    {
      if irqTx < 0 {
        return Panic("No interrupt handler has been defined for TX FIFO interrupts");
      }
      txEnabled := txEnabled[chnl := enable];
      status := Ok;
    }

    /** RX_FIFO_set_irq_handler: binds the one RX handler, for a channel of PIO 0. */
    method SetRxHandler(chnl: nat) returns (status: Status)
      requires Valid()
      modifies this, chnls
      ensures Valid()
      ensures status.Ok? <==> old(irqRx) == UNALLOCATED && chnl / SMS_PER_PIO == 0
      ensures status.Ok? ==> irqRx == RX_FIFO_IRQ && chnls[chnl] == old(chnls[chnl]).(rxIrq := RX_FIFO_IRQ)
      ensures status.Ok? ==> forall k :: 0 <= k < NMAX_CHNLS && k != chnl ==> chnls[k] == old(chnls[k])
      ensures status.Panic? ==> irqRx == old(irqRx) && chnls[..] == old(chnls[..])
      ensures tx == old(tx) && rx == old(rx) && txEnabled == old(txEnabled) && rxEnabled == old(rxEnabled)
      ensures next == old(next) && laneRate == old(laneRate) && irqTx == old(irqTx)
    {
      if irqRx >= 0 {
        return Panic("Only a single RX FIFO interrupt handler can presently be defined");
      }
      var pioIndex := chnl / SMS_PER_PIO;
      if pioIndex != 0 {
        return Panic("Interrupt handling is presently only available for channels 0 to 3");
      }
      irqRx := RX_FIFO_IRQ;
      chnls[chnl] := chnls[chnl].(rxIrq := irqRx);
      status := Ok;
    }

    /** enable_rx_fifo_interrupts: toggles one state machine's RX source; panics
        while no RX handler is bound. */
    method EnableRx(chnl: nat, enable: bool) returns (status: Status)
      requires Valid() && chnl < NMAX_CHNLS
      modifies this
      ensures Valid()
      ensures status.Ok? <==> old(irqRx) >= 0
      ensures rxEnabled == if status.Ok? then old(rxEnabled)[chnl := enable] else old(rxEnabled)
      ensures tx == old(tx) && rx == old(rx) && txEnabled == old(txEnabled)
      ensures next == old(next) && laneRate == old(laneRate) && irqTx == old(irqTx) && irqRx == old(irqRx)
    {
      if irqRx < 0 {
        return Panic("No interrupt handler has been defined for RX FIFO interrupts");
      }
      rxEnabled := rxEnabled[chnl := enable];
      status := Ok;
    }
  }

  /** Channel numbers come out as 0, 1, 2, ... in call order, channel n on PIO n/4
      and SM n%4, and the call after the twelfth panics. */
  method SequentialNumbering(sda: nat, speed: Speed) returns (ids: seq<nat>, placed: seq<(nat, nat)>, overflow: Status)
    ensures ids == seq(NMAX_CHNLS, k => k)
    ensures placed == seq(NMAX_CHNLS, k => (k / SMS_PER_PIO, k % SMS_PER_PIO))
    ensures overflow.Panic?
  {
    var bus := new Transport();
    ids, placed := [], [];
    while |ids| < NMAX_CHNLS
      invariant bus.Valid() && bus.next == |ids| && |placed| == |ids|
      invariant ids == seq(|ids|, k => k)
      invariant placed == seq(|ids|, k => (k / SMS_PER_PIO, k % SMS_PER_PIO))
    {
      var status, n := bus.CreateChannel(sda, speed);
      ids := ids + [n];
      placed := placed + [(bus.chnls[n].pio, bus.chnls[n].sm)];
    }
    var unused;
    overflow, unused := bus.CreateChannel(sda, speed);
  }
}
