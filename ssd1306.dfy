/** The SSD1306/SSD1309 OLED driver (lib/SSD1306/SSD1306.c): the initialisation
    sequence, the interrupt-driven frame scan and the calls that request a scan. */
module Ssd1306 {
  import opened Platform
  import opened Codec
  import opened Nbi
  import opened Content

  const I2C_ADDRESS: nat := 0x3C
  const ADDR_W: Byte := 0x78
  const CMD_CONTROL: Byte := 0x00       // control byte: a command follows
  const DATA_CONTROL: Byte := 0x40      // control byte: display data follows

  /** magic_1: the command bytes that bring the panel up. */
  const MAGIC: seq<Byte> := [
    0xAE, 0x00, 0x10, 0x40, 0x20, 0x00, 0x81, 0xFF,
    0xA6, 0xA8, 0x3F, 0xD3, 0x00, 0xD5, 0x80, 0xD9,
    0x22, 0xDA, 0x12, 0xDB, 0x40, 0x8D, 0x14, 0xA4,
    0xAF]

  /** cmds: page addresses 0..7, then column addresses 0..127. */
  const CMDS: seq<Byte> := [0x22, 0x00, 0x07, 0x21, 0x00, 0x7F]

  const START_NACK := Options(true, true, false, false)
  const NACK_ONLY := Options(false, true, false, false)
  const STOP_NACK := Options(false, true, false, true)

  /** ADDR_W is the panel's 7-bit address in write direction. */
  lemma WriteAddress()
    ensures AddressByte(I2C_ADDRESS, Write) == ADDR_W
  {
  }

  /** cmd: one command byte as its own write transfer. */
  function CmdEffects(b: Byte): seq<Effect>
  {
    [Send(ADDR_W, START_NACK), Send(CMD_CONTROL, NACK_ONLY), Send(b, STOP_NACK)]
  }

  /** The effects of cmd applied to each byte in turn. */
  function CmdSequence(bs: seq<Byte>): seq<Effect>
  {
    if bs == [] then [] else CmdSequence(bs[..|bs| - 1]) + CmdEffects(bs[|bs| - 1])
  }

  /** Every command is a three-record transfer: START with the address, the command
      control byte, the command with STOP. */
  lemma {:induction false} CmdSequenceShape(bs: seq<Byte>)
    ensures |CmdSequence(bs)| == 3 * |bs|
    ensures forall k :: 0 <= k < |bs| ==>
              && CmdSequence(bs)[3 * k] == Send(ADDR_W, START_NACK)
              && CmdSequence(bs)[3 * k + 1] == Send(CMD_CONTROL, NACK_ONLY)
              && CmdSequence(bs)[3 * k + 2] == Send(bs[k], STOP_NACK)
  {
    if bs != [] {
      var init := bs[..|bs| - 1];
      CmdSequenceShape(init);
      forall k | 0 <= k < |bs|
        ensures && CmdSequence(bs)[3 * k] == Send(ADDR_W, START_NACK)
                && CmdSequence(bs)[3 * k + 1] == Send(CMD_CONTROL, NACK_ONLY)
                && CmdSequence(bs)[3 * k + 2] == Send(bs[k], STOP_NACK)
      {
        if k < |init| {
          assert bs[k] == init[k];
        }
      }
    }
  }

  lemma CmdSequenceSnoc(bs: seq<Byte>, k: nat)
    requires k < |bs|
    ensures Words(CmdSequence(bs[..k + 1])) == Words(CmdSequence(bs[..k])) + Words(CmdEffects(bs[k]))
  {
    assert bs[..k + 1][..k] == bs[..k];
    WordsAppend(CmdSequence(bs[..k]), CmdEffects(bs[k]));
  }

  /** A list of sends pushes exactly its own records, one each, in order. */
  lemma {:induction false} WordsOfSends(out: seq<Effect>)
    requires forall k :: 0 <= k < |out| ==> out[k].Send?
    ensures |Words(out)| == |out|
    ensures forall k :: 0 <= k < |out| ==> Words(out)[k] == Encode(out[k].data, out[k].opts)
  {
    if out != [] {
      WordsOfSends(out[1..]);
      assert Words(out) == [Encode(out[0].data, out[0].opts)] + Words(out[1..]);
    }
  }

  /** display_init's trace: 75 records, the 25 magic bytes in order, each wrapped in
      its own transfer. */
  lemma InitTrace()
    ensures |Words(CmdSequence(MAGIC))| == 3 * |MAGIC| == 75
    ensures forall k :: 0 <= k < |MAGIC| ==>
              && Words(CmdSequence(MAGIC))[3 * k] == Encode(ADDR_W, START_NACK)
              && Words(CmdSequence(MAGIC))[3 * k + 1] == Encode(CMD_CONTROL, NACK_ONLY)
              && Words(CmdSequence(MAGIC))[3 * k + 2] == Encode(MAGIC[k], STOP_NACK)
  {
    CmdSequenceShape(MAGIC);
    var out := CmdSequence(MAGIC);
    forall k | 0 <= k < |out|
      ensures out[k].Send?
    {
      var q := k / 3;
      assert k == 3 * q || k == 3 * q + 1 || k == 3 * q + 2;
    }
    WordsOfSends(out);
  }

  /** state_t. */
  datatype State = S0 | S1 | S2 | S3 | S4 | T0 | T1 | T2 | T3 | U0 | U1 | U2

  /** The handler's variables: the state, the index i, and the busy and another flags. */
  datatype Machine = Machine(state: State, i: nat, busy: bool, another: bool)

  /** One handler invocation: the new variables, the new `valid` flag of the
      content provider and the effects in order; or a panic. */
  datatype Outcome = Stepped(m: Machine, valid: bool, out: seq<Effect>) | Halted

  /** i indexes cmds in the command states and the frame in the data state. */
  predicate WellPhased(m: Machine)
  {
    && (m.state == T1 || m.state == T2 || m.state == T3 ==> m.i < |CMDS|)
    && (m.state == U0 ==> m.i < FRAME_SIZE)
  }

  /** The scan states: the ones the handler can be in while a scan is under way. */
  predicate Scanning(s: State)
  {
    s == S0 || s == S1 || s == S2 || s == S3 || s == T1 || s == T2 || s == T3 || s == U0
  }

  /** interrupt_handler, once, as a function of the handler's variables, the content
      provider's view and flag, and whether an action function is set. */
  function Step(m: Machine, v: View, valid: bool, hasAction: bool): (r: Outcome)
    requires WellFormed(v) && WellPhased(m)
    ensures r.Halted? <==> !Scanning(m.state)
    ensures r.Stepped? ==> WellPhased(r.m)
  {
    match m.state
    case S0 => Stepped(m.(i := 0, state := T1), valid, [Send(ADDR_W, START_NACK)])
    case S1 => Stepped(m.(state := S2), valid, [Send(ADDR_W, START_NACK)])
    case S2 => Stepped(m.(i := 0, state := U0), valid, [Send(DATA_CONTROL, NACK_ONLY)])
    case S3 =>
      if m.another then Stepped(m.(state := S0, another := false), valid, [])
      else Stepped(m.(busy := false, state := S4), valid, [Disarm] + (if hasAction then [Callback] else []))
    case T1 => Stepped(m.(state := T2), valid, [Send(CMD_CONTROL, NACK_ONLY)])
    case T2 =>
      Stepped(m.(i := m.i + 1, state := if m.i + 1 < |CMDS| then T3 else S1), valid, [Send(CMDS[m.i], STOP_NACK)])
    case T3 => Stepped(m.(state := T1), valid, [Send(ADDR_W, START_NACK)])
    case U0 =>
      var (slice, valid') := SliceStep(v, valid, m.i);
      var last := m.i == FRAME_SIZE - 1;
      Stepped(m.(i := m.i + 1, state := if last then S3 else U0), valid', [Send(slice, Options(false, true, false, last))])
    case _ => Halted
  }

  /** Each interrupt pushes at most one record; only the end of a frame with no
      pending request disarms the TX source and calls the action function, and
      only disarming clears busy. */
  lemma StepEffects(m: Machine, v: View, valid: bool, hasAction: bool)
    requires WellFormed(v) && WellPhased(m) && Scanning(m.state)
    ensures var r := Step(m, v, valid, hasAction);
      && |Words(r.out)| <= 1
      && (Disarm in r.out <==> m.state == S3 && !m.another)
      && (Callback in r.out <==> m.state == S3 && !m.another && hasAction)
      && r.m.busy == (m.busy && !(Disarm in r.out))
  {
    var r := Step(m, v, valid, hasAction);
    if m.state == S3 && !m.another {
      WordsNoSends(r.out);
    } else if r.out != [] {
      WordsSingle(r.out[0]);
      assert r.out == [r.out[0]];
    }
  }

  /** display: while a scan runs, ask for one more; otherwise start one. */
  function RequestScan(m: Machine): (m': Machine)
    ensures m'.busy && m'.i == m.i
    ensures m.busy ==> m'.another && m'.state == m.state
    ensures !m.busy ==> m'.state == S0 && m'.another == m.another
  {
    if m.busy then m.(another := true) else m.(state := S0, busy := true)
  }

  /** The driver's invariant between calls: the TX source is armed exactly while
      busy, a pending request implies a running scan, an idle machine rests in S0
      or S4 and a busy one in a scan state. */
  predicate Coherent(m: Machine, armed: bool)
  {
    && WellPhased(m)
    && (armed <==> m.busy)
    && (m.another ==> m.busy)
    && (!m.busy ==> m.state == S0 || m.state == S4)
    && (m.busy ==> Scanning(m.state))
  }

  /** Under the invariant an interrupt never panics, and the step keeps the
      invariant with the TX source disarmed exactly when the step disarmed it. */
  lemma StepKeepsCoherence(m: Machine, v: View, valid: bool, hasAction: bool)
    requires WellFormed(v) && Coherent(m, true)
    ensures Step(m, v, valid, hasAction).Stepped?
    ensures Coherent(Step(m, v, valid, hasAction).m, !(Disarm in Step(m, v, valid, hasAction).out))
  {
    StepEffects(m, v, valid, hasAction);
  }

  /** display keeps the invariant; an idle machine becomes armed. */
  lemma RequestKeepsCoherence(m: Machine, armed: bool)
    requires Coherent(m, armed)
    ensures Coherent(RequestScan(m), true)
  {
  }

  /** The state at reset: S0, index 0, both flags clear. */
  const RESET := Machine(S0, 0, false, false)

  lemma ResetIsCoherent()
    ensures Coherent(RESET, false)
  {
  }

  /** The driver's static variables, with the transport and the content provider it
      uses. */
  class Display {
    const bus: Transport
    const content: Content
    var cn: nat                        // the_cn
    var state: State
    var i: nat
    var busy: bool
    var another: bool
    var action: Option<CallbackId>     // the_action_function
    var invoked: seq<CallbackId>       // the action functions called, in order

    ghost predicate Valid()
      reads this, bus, bus.chnls, content, content.lines
    {
      bus.Valid() && content.Valid() && cn < NMAX_CHNLS && WellPhased(Phase())
    }

    function Phase(): Machine
      reads this
    {
      Machine(state, i, busy, another)
    }

    /** The zero-initialised statics. */
    constructor (bus: Transport, content: Content)
      requires bus.Valid() && content.Valid()
      ensures Valid() && this.bus == bus && this.content == content
      ensures cn == 0 && Phase() == RESET && action == None && invoked == []
    {
      this.bus, this.content := bus, content;
      cn, state, i, busy, another := 0, S0, 0, false, false;
      action, invoked := None, [];
    }

    /** display_set_action_function. */
    method SetAction(a: Option<CallbackId>)
      modifies this`action
      ensures action == a
    {
      action := a;
    }

    /** nbi_send on this driver's channel. */
    method Emit(d: Byte, o: Options)
      requires bus.Valid() && cn < NMAX_CHNLS
      modifies bus
      ensures bus.Valid()
      ensures bus.tx == old(bus.tx)[cn := old(bus.tx[cn]) + Words([Send(d, o)])]
      ensures bus.rx == old(bus.rx) && bus.txEnabled == old(bus.txEnabled) && bus.rxEnabled == old(bus.rxEnabled)
      ensures bus.Setup() == old(bus.Setup())
    {
      bus.Send(cn, d, o);
      WordsSingle(Send(d, o));
    }

    /** cmd. */
    method Cmd(b: Byte)
      requires bus.Valid() && cn < NMAX_CHNLS
      modifies bus
      ensures bus.Valid()
      ensures bus.tx == old(bus.tx)[cn := old(bus.tx[cn]) + Words(CmdEffects(b))]
      ensures bus.rx == old(bus.rx) && bus.txEnabled == old(bus.txEnabled) && bus.rxEnabled == old(bus.rxEnabled)
      ensures bus.Setup() == old(bus.Setup())
    {
      ghost var before := bus.tx[cn];
      bus.Send(cn, ADDR_W, START_NACK);
      bus.Send(cn, CMD_CONTROL, NACK_ONLY);
      bus.Send(cn, b, STOP_NACK);
      WordsOfSends(CmdEffects(b));
      assert Words(CmdEffects(b)) == [Encode(ADDR_W, START_NACK), Encode(CMD_CONTROL, NACK_ONLY), Encode(b, STOP_NACK)];
      assert bus.tx[cn] == before + Words(CmdEffects(b));
    }

    /** The loop of display_init: cmd for each byte, in order. */
    method SendCommands(bs: seq<Byte>)
      requires bus.Valid() && cn < NMAX_CHNLS
      modifies bus
      ensures bus.Valid()
      ensures bus.tx == old(bus.tx)[cn := old(bus.tx[cn]) + Words(CmdSequence(bs))]
      ensures bus.rx == old(bus.rx) && bus.txEnabled == old(bus.txEnabled) && bus.rxEnabled == old(bus.rxEnabled)
      ensures bus.Setup() == old(bus.Setup())
    {
      var k := 0;
      assert bs[..0] == [] && old(bus.tx[cn]) + Words([]) == old(bus.tx[cn]);
      while k < |bs|
        invariant 0 <= k <= |bs| && bus.Valid()
        invariant bus.tx[cn] == old(bus.tx[cn]) + Words(CmdSequence(bs[..k]))
        invariant forall j :: 0 <= j < NMAX_CHNLS && j != cn ==> bus.tx[j] == old(bus.tx[j])
        invariant bus.rx == old(bus.rx) && bus.txEnabled == old(bus.txEnabled) && bus.rxEnabled == old(bus.rxEnabled)
        invariant bus.Setup() == old(bus.Setup())
      {
        ghost var pre := bus.tx[cn];
        Cmd(bs[k]);
        CmdSequenceSnoc(bs, k);
        assert bus.tx[cn] == pre + Words(CmdEffects(bs[k]));
        k := k + 1;
      }
      assert bs[..k] == bs;
    }

    /** display_init: records the channel, initialises the content provider, sends the
        magic sequence, clears the flags and binds the TX handler, which panics when
        a TX handler is already bound or the channel is not on PIO 0. */
    method Init(chnl: nat, fs: FontSize) returns (status: Status)
      requires Valid() && chnl < NMAX_CHNLS
      modifies this, bus, bus.chnls, content, content.lines
      ensures Valid() && cn == chnl && state == old(state) && i == old(i) && !busy && !another
      ensures action == old(action) && invoked == old(invoked)
      ensures content.fontSize == fs && content.valid == old(content.valid)
      ensures forall r, c :: 0 <= r < BUFFER_LINES && 0 <= c < LINE_SLOTS ==>
                content.lines[r, c] == if c == 0 then NUL else old(content.lines[r, c])
      ensures bus.tx == old(bus.tx)[chnl := old(bus.tx[chnl]) + Words(CmdSequence(MAGIC))]
      ensures status.Ok? <==> old(bus.irqTx) == UNALLOCATED && chnl < SMS_PER_PIO
      ensures status.Ok? ==> bus.irqTx == TX_FIFO_IRQ && bus.chnls[chnl] == old(bus.chnls[chnl]).(txIrq := TX_FIFO_IRQ)
      ensures status.Panic? ==> bus.irqTx == old(bus.irqTx)
      ensures forall k :: 0 <= k < NMAX_CHNLS && (status.Panic? || k != chnl) ==> bus.chnls[k] == old(bus.chnls[k])
      ensures bus.rx == old(bus.rx) && bus.txEnabled == old(bus.txEnabled) && bus.rxEnabled == old(bus.rxEnabled)
      ensures bus.next == old(bus.next) && bus.laneRate == old(bus.laneRate) && bus.irqRx == old(bus.irqRx)
    {
      cn := chnl;
      content.Init(fs);
      SendCommands(MAGIC);
      another := false;
      busy := false;
      status := bus.SetTxHandler(cn);
    }

    /** What one call of interrupt_handler does, from the state before the call to
        the state after it: exactly what Step computes, or nothing on a panic. */
    twostate predicate Handled(status: Status)
      requires old(Valid())
      reads this, bus, content
    {
      var r := Step(old(Phase()), old(content.Snapshot()), old(content.valid), old(action).Some?);
      && cn == old(cn) && action == old(action)
      && (status.Ok? <==> r.Stepped?)
      && (r.Stepped? ==>
            && Phase() == r.m && content.valid == r.valid
            && bus.tx == old(bus.tx)[cn := old(bus.tx[cn]) + Words(r.out)]
            && bus.txEnabled == (if Disarm in r.out then old(bus.txEnabled)[cn := false] else old(bus.txEnabled))
            && invoked == old(invoked) + (if Callback in r.out then [old(action).value] else []))
      && (status.Panic? ==>
            && Phase() == old(Phase()) && content.valid == old(content.valid)
            && bus.tx == old(bus.tx) && bus.txEnabled == old(bus.txEnabled) && invoked == old(invoked))
      && bus.rx == old(bus.rx) && bus.rxEnabled == old(bus.rxEnabled) && bus.Setup() == old(bus.Setup())
    }

    /** interrupt_handler: one TX-FIFO-not-full interrupt, delivered while the
        channel's TX source is enabled. */
    method InterruptHandler() returns (status: Status)
      requires Valid() && bus.txEnabled[cn]
      modifies this, bus, content`valid
      ensures Valid() && Handled(status)
    {
      if state == S0 || state == S1 || state == S2 {
        Preamble();
        status := Ok;
      } else if state == T1 || state == T2 || state == T3 {
        Command();
        status := Ok;
      } else if state == U0 {
        PaintSlice();
        status := Ok;
      } else if state == S3 && another {
        Restart();
        status := Ok;
      } else if state == S3 {
        Finish();
        status := Ok;
      } else {
        status := Halt();
      }
    }

    /** S4 and the states the switch has no case for: interrupt_handler panics. */
    method Halt() returns (status: Status)
      requires Valid() && !Scanning(state)
      ensures Valid() && Handled(status)
    {
      if state == S4 {
        status := Panic("Display: stop at S4");
      } else {
        status := Panic("Bad state in switch");
      }
    }

    /** States S0, S1 and S2 of interrupt_handler: open the command transfer, then
        open the data transfer and send its control byte. */
    method Preamble()
      requires Valid() && (state == S0 || state == S1 || state == S2)
      modifies this`state, this`i, bus
      ensures Valid() && Handled(Ok)
    {
      match state {
        case S0 =>
          i := 0;
          Emit(ADDR_W, START_NACK);
          state := T1;
        case S1 =>
          Emit(ADDR_W, START_NACK);
          state := S2;
        case S2 =>
          i := 0;
          Emit(DATA_CONTROL, NACK_ONLY);
          state := U0;
      }
    }

    /** States T1, T2 and T3 of interrupt_handler: the control byte, the command
        byte cmds[i] with STOP, and the next transfer's address. */
    method Command()
      requires Valid() && (state == T1 || state == T2 || state == T3)
      modifies this`state, this`i, bus
      ensures Valid() && Handled(Ok)
    {
      match state {
        case T1 =>
          Emit(CMD_CONTROL, NACK_ONLY);
          state := T2;
        case T2 =>
          Emit(CMDS[i], STOP_NACK);
          i := i + 1;
          state := if i < |CMDS| then T3 else S1;
        case T3 =>
          Emit(ADDR_W, START_NACK);
          state := T1;
      }
    }

    /** State U0 of interrupt_handler: the next slice of the frame, with STOP on the
        last one. */
    method PaintSlice()
      requires Valid() && state == U0
      modifies this`state, this`i, bus, content`valid
      ensures Valid() && Handled(Ok)
    {
      var slice := content.GetSlice(i);
      var stop := i == FRAME_SIZE - 1;
      Emit(slice, Options(false, true, false, stop));
      i := i + 1;
      state := if i == FRAME_SIZE then S3 else U0;
    }

    /** State S3 of interrupt_handler with a request pending: start the next scan. */
    method Restart()
      requires Valid() && state == S3 && another
      modifies this`state, this`another
      ensures Valid() && Handled(Ok)
    {
      assert old(bus.tx[cn]) + [] == old(bus.tx[cn]);
      assert old(bus.tx)[cn := old(bus.tx[cn])] == old(bus.tx);
      state := S0;
      another := false;
    }

    /** State S3 of interrupt_handler with no request pending: disarm the TX source,
        go idle and call the action function. */
    method Finish()
      requires Valid() && state == S3 && !another && bus.txEnabled[cn]
      modifies this`state, this`busy, this`invoked, bus
      ensures Valid() && Handled(Ok)
    {
      WordsNoSends([Disarm] + (if action.Some? then [Callback] else []));
      assert old(bus.tx[cn]) + [] == old(bus.tx[cn]);
      assert old(bus.tx)[cn := old(bus.tx[cn])] == old(bus.tx);
      var unused := bus.EnableTx(cn, false);
      busy := false;
      state := S4;
      if action.Some? {
        invoked := invoked + [action.value];
      }
    }

    /** display: coalesces a request into the running scan, or starts a scan by
        entering S0, setting busy and then arming the TX source, which panics while
        no TX handler is bound (after S0 and busy are set). */
    method Request() returns (status: Status)
      requires Valid()
      modifies this, bus
      ensures Valid() && cn == old(cn) && action == old(action) && invoked == old(invoked)
      ensures status.Panic? <==> !old(busy) && old(bus.irqTx) < 0
      ensures Phase() == RequestScan(old(Phase()))
      ensures bus.txEnabled == if old(busy) || status.Panic? then old(bus.txEnabled) else old(bus.txEnabled)[cn := true]
      ensures bus.tx == old(bus.tx) && bus.rx == old(bus.rx) && bus.rxEnabled == old(bus.rxEnabled)
      ensures bus.Setup() == old(bus.Setup())
      ensures old(Coherent(Phase(), bus.txEnabled[cn])) && status.Ok? ==> Coherent(Phase(), bus.txEnabled[cn])
    {
      if busy {
        another := true;
        return Ok;
      }
      state := S0;
      busy := true;
      status := bus.EnableTx(cn, true);
    }

    /** display_try: restarts the scan only from S0 or S4, entering S0 and then arming
        the TX source (which panics while no TX handler is bound); busy and another
        are left as they are. */
    method Try() returns (status: Status, started: bool)
      requires Valid()
      modifies this, bus
      ensures Valid() && cn == old(cn) && action == old(action) && invoked == old(invoked)
      ensures started <==> old(state) == S0 || old(state) == S4
      ensures status.Panic? <==> started && old(bus.irqTx) < 0
      ensures Phase() == if started then old(Phase()).(state := S0) else old(Phase())
      ensures bus.txEnabled == if status.Ok? && started then old(bus.txEnabled)[cn := true] else old(bus.txEnabled)
      ensures bus.tx == old(bus.tx) && bus.rx == old(bus.rx) && bus.rxEnabled == old(bus.rxEnabled)
      ensures bus.Setup() == old(bus.Setup())
    {
      started := state == S0 || state == S4;
      status := Ok;
      if started {
        state := S0;
        status := bus.EnableTx(cn, true);
      }
    }
  }
}
