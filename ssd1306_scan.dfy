/** Whole scans of the SSD1306 driver: sequences of interrupt_handler invocations
    (lib/SSD1306/SSD1306.c) and the records they push, with the line buffer held
    fixed for the duration of the run. */
module Ssd1306Scan {
  import opened Codec
  import opened Nbi
  import opened Content
  import opened Ssd1306

  /** n consecutive interrupts from m, after the effects `done`: the final
      variables and flag and every effect in order, or Halted when one of the
      interrupts panics. */
  function Run(m: Machine, v: View, valid: bool, hasAction: bool, n: nat, done: seq<Effect>): Outcome
    requires WellFormed(v) && WellPhased(m)
    decreases n, 1
  {
    if n == 0 then Stepped(m, valid, done)
    else Resume(Step(m, v, valid, hasAction), v, hasAction, n - 1, done)
  }

  /** The rest of a run after one interrupt's outcome r: stop on a panic, otherwise
      record its effects and carry on for n more interrupts. */
  function Resume(r: Outcome, v: View, hasAction: bool, n: nat, done: seq<Effect>): Outcome
    requires WellFormed(v) && (r.Stepped? ==> WellPhased(r.m))
    decreases n, 2
  {
    if r.Halted? then Halted else Run(r.m, v, r.valid, hasAction, n, done + r.out)
  }

  /** A run of a + b interrupts is a run of a followed by a run of b. */
  lemma {:induction false} RunAdd(m: Machine, v: View, valid: bool, hasAction: bool, a: nat, b: nat, done: seq<Effect>)
    requires WellFormed(v) && WellPhased(m)
    requires Run(m, v, valid, hasAction, a, done).Stepped?
    ensures var r := Run(m, v, valid, hasAction, a, done);
      WellPhased(r.m) && Run(m, v, valid, hasAction, a + b, done) == Run(r.m, v, r.valid, hasAction, b, r.out)
    decreases a
  {
    if a > 0 {
      var s := Step(m, v, valid, hasAction);
      assert Run(m, v, valid, hasAction, a, done) == Resume(s, v, hasAction, a - 1, done);
      assert Run(m, v, valid, hasAction, a + b, done) == Resume(s, v, hasAction, (a - 1) + b, done);
      assert s.Stepped?;
      RunAdd(s.m, v, s.valid, hasAction, a - 1, b, done + s.out);
    }
  }

  /** One interrupt in each scan state, as a step of a run: the successor state and
      the record it appends. */
  lemma RunS0(i: nat, busy: bool, another: bool, v: View, valid: bool, hasAction: bool, n: nat, done: seq<Effect>)
    requires WellFormed(v) && n >= 1
    ensures Run(Machine(S0, i, busy, another), v, valid, hasAction, n, done)
         == Run(Machine(T1, 0, busy, another), v, valid, hasAction, n - 1, done + [Send(ADDR_W, START_NACK)])
  {
  }

  lemma RunT1(k: nat, busy: bool, another: bool, v: View, valid: bool, hasAction: bool, n: nat, done: seq<Effect>)
    requires WellFormed(v) && k < |CMDS| && n >= 1
    ensures Run(Machine(T1, k, busy, another), v, valid, hasAction, n, done)
         == Run(Machine(T2, k, busy, another), v, valid, hasAction, n - 1, done + [Send(CMD_CONTROL, NACK_ONLY)])
  {
  }

  lemma RunT2(k: nat, busy: bool, another: bool, v: View, valid: bool, hasAction: bool, n: nat, done: seq<Effect>)
    requires WellFormed(v) && k + 1 < |CMDS| && n >= 1
    ensures Run(Machine(T2, k, busy, another), v, valid, hasAction, n, done)
         == Run(Machine(T3, k + 1, busy, another), v, valid, hasAction, n - 1, done + [Send(CMDS[k], STOP_NACK)])
  {
  }

  lemma RunT2Last(k: nat, busy: bool, another: bool, v: View, valid: bool, hasAction: bool, n: nat, done: seq<Effect>)
    requires WellFormed(v) && k + 1 == |CMDS| && n >= 1
    ensures Run(Machine(T2, k, busy, another), v, valid, hasAction, n, done)
         == Run(Machine(S1, k + 1, busy, another), v, valid, hasAction, n - 1, done + [Send(CMDS[k], STOP_NACK)])
  {
  }

  lemma RunT3(k: nat, busy: bool, another: bool, v: View, valid: bool, hasAction: bool, n: nat, done: seq<Effect>)
    requires WellFormed(v) && k < |CMDS| && n >= 1
    ensures Run(Machine(T3, k, busy, another), v, valid, hasAction, n, done)
         == Run(Machine(T1, k, busy, another), v, valid, hasAction, n - 1, done + [Send(ADDR_W, START_NACK)])
  {
  }

  lemma RunS1(i: nat, busy: bool, another: bool, v: View, valid: bool, hasAction: bool, n: nat, done: seq<Effect>)
    requires WellFormed(v) && n >= 1
    ensures Run(Machine(S1, i, busy, another), v, valid, hasAction, n, done)
         == Run(Machine(S2, i, busy, another), v, valid, hasAction, n - 1, done + [Send(ADDR_W, START_NACK)])
  {
  }

  lemma RunS2(i: nat, busy: bool, another: bool, v: View, valid: bool, hasAction: bool, n: nat, done: seq<Effect>)
    requires WellFormed(v) && n >= 1
    ensures Run(Machine(S2, i, busy, another), v, valid, hasAction, n, done)
         == Run(Machine(U0, 0, busy, another), v, valid, hasAction, n - 1, done + [Send(DATA_CONTROL, NACK_ONLY)])
  {
  }

  /** The record the data state sends for raster index k: SliceAt with NACK, and
      STOP on the last index only. */
  ghost function SliceSend(v: View, k: nat): Effect
    requires WellFormed(v) && k < FRAME_SIZE
  {
    Send(SliceAt(v, k), Options(false, true, false, k == FRAME_SIZE - 1))
  }

  lemma RunU0(k: nat, busy: bool, another: bool, v: View, valid: bool, hasAction: bool, n: nat, done: seq<Effect>)
    requires WellFormed(v) && k + 1 < FRAME_SIZE && n >= 1
    requires k % WIDTH == 0 || (k > 0 && valid == ValidThrough(v, k - 1))
    ensures Run(Machine(U0, k, busy, another), v, valid, hasAction, n, done)
         == Run(Machine(U0, k + 1, busy, another), v, ValidThrough(v, k), hasAction, n - 1, done + [SliceSend(v, k)])
  {
    ScanAgrees(v, valid, k);
  }

  lemma RunU0Last(k: nat, busy: bool, another: bool, v: View, valid: bool, hasAction: bool, n: nat, done: seq<Effect>)
    requires WellFormed(v) && k + 1 == FRAME_SIZE && n >= 1
    requires valid == ValidThrough(v, k - 1)
    ensures Run(Machine(U0, k, busy, another), v, valid, hasAction, n, done)
         == Run(Machine(S3, k + 1, busy, another), v, ValidThrough(v, k), hasAction, n - 1, done + [SliceSend(v, k)])
  {
    ScanAgrees(v, valid, k);
  }

  /** What the end of the last scan pushes: disarm, then the action function if set. */
  function Finale(hasAction: bool): seq<Effect>
  {
    [Disarm] + (if hasAction then [Callback] else [])
  }

  lemma RunS3Again(i: nat, v: View, valid: bool, hasAction: bool, n: nat, done: seq<Effect>)
    requires WellFormed(v) && n >= 1
    ensures Run(Machine(S3, i, true, true), v, valid, hasAction, n, done)
         == Run(Machine(S0, i, true, false), v, valid, hasAction, n - 1, done)
  {
    assert done + [] == done;
  }

  lemma RunS3Done(i: nat, v: View, valid: bool, hasAction: bool, n: nat, done: seq<Effect>)
    requires WellFormed(v) && n >= 1
    ensures Run(Machine(S3, i, true, false), v, valid, hasAction, n, done)
         == Run(Machine(S4, i, false, false), v, valid, hasAction, n - 1, done + Finale(hasAction))
  {
  }

  /** The records of the command phase after its first one: for command k, the
      control byte and the command with STOP, then the address of the next command. */
  ghost function CmdTail(k: nat): seq<Effect>
    requires k < |CMDS|
    decreases |CMDS| - k
  {
    [Send(CMD_CONTROL, NACK_ONLY), Send(CMDS[k], STOP_NACK)]
      + (if k + 1 < |CMDS| then [Send(ADDR_W, START_NACK)] + CmdTail(k + 1) else [])
  }

  /** The cmd triples cons up as well as they snoc. */
  lemma {:induction false} CmdSequenceCons(b: Byte, bs: seq<Byte>)
    ensures CmdSequence([b] + bs) == CmdEffects(b) + CmdSequence(bs)
    decreases |bs|
  {
    if bs == [] {
      assert [b] + bs == [b];
      assert CmdSequence([b]) == CmdSequence([]) + CmdEffects(b);
    } else {
      var init, last := bs[..|bs| - 1], bs[|bs| - 1];
      assert ([b] + bs)[..|bs|] == [b] + init;
      CmdSequenceCons(b, init);
    }
  }

  /** CmdTail is CmdSequence of the remaining commands without its first record. */
  lemma {:induction false} CmdTailIsSequence(k: nat)
    requires k < |CMDS|
    ensures CmdSequence(CMDS[k..]) == [Send(ADDR_W, START_NACK)] + CmdTail(k)
    decreases |CMDS| - k
  {
    var rest := CMDS[k + 1..];
    assert CMDS[k..] == [CMDS[k]] + rest;
    CmdSequenceCons(CMDS[k], rest);
    if k + 1 < |CMDS| {
      CmdTailIsSequence(k + 1);
      assert CmdTail(k) == [Send(CMD_CONTROL, NACK_ONLY), Send(CMDS[k], STOP_NACK)] + CmdSequence(rest);
    } else {
      assert rest == [];
    }
  }

  lemma CmdTailCons(k: nat, done: seq<Effect>)
    requires k + 1 < |CMDS|
    ensures done + [Send(CMD_CONTROL, NACK_ONLY)] + [Send(CMDS[k], STOP_NACK)] + [Send(ADDR_W, START_NACK)] + CmdTail(k + 1)
         == done + CmdTail(k)
  {
  }

  /** One whole command transfer inside the command phase: the control byte, the
      command with STOP, and the next command's address. */
  lemma CommandTriple(k: nat, busy: bool, another: bool, v: View, valid: bool, hasAction: bool, n: nat, done: seq<Effect>)
    requires WellFormed(v) && k + 1 < |CMDS| && n >= 3
    ensures Run(Machine(T1, k, busy, another), v, valid, hasAction, n, done)
         == Run(Machine(T1, k + 1, busy, another), v, valid, hasAction, n - 1 - 1 - 1,
                done + [Send(CMD_CONTROL, NACK_ONLY)] + [Send(CMDS[k], STOP_NACK)] + [Send(ADDR_W, START_NACK)])
  {
    var d1 := done + [Send(CMD_CONTROL, NACK_ONLY)];
    RunT1(k, busy, another, v, valid, hasAction, n, done);
    RunT2(k, busy, another, v, valid, hasAction, n - 1, d1);
    RunT3(k + 1, busy, another, v, valid, hasAction, n - 1 - 1, d1 + [Send(CMDS[k], STOP_NACK)]);
  }

  /** The last command's control byte and the command itself end the command phase. */
  lemma LastCommand(k: nat, busy: bool, another: bool, v: View, valid: bool, hasAction: bool, n: nat, done: seq<Effect>)
    requires WellFormed(v) && k + 1 == |CMDS| && n == 2
    ensures Run(Machine(T1, k, busy, another), v, valid, hasAction, n, done)
         == Stepped(Machine(S1, |CMDS|, busy, another), valid, done + CmdTail(k))
  {
    var d1 := done + [Send(CMD_CONTROL, NACK_ONLY)];
    RunT1(k, busy, another, v, valid, hasAction, n, done);
    RunT2Last(k, busy, another, v, valid, hasAction, n - 1, d1);
    assert d1 + [Send(CMDS[k], STOP_NACK)] == done + CmdTail(k);
  }

  /** From T1 with i = k, the rest of the command phase: the tail of command k's
      transfer and the transfers of commands k+1..5, ending in S1 with i = 6. */
  lemma {:induction false} CommandsFrom(k: nat, busy: bool, another: bool, v: View, valid: bool, hasAction: bool, n: nat, done: seq<Effect>)
    requires WellFormed(v) && k < |CMDS| && n == 3 * (|CMDS| - k) - 1
    ensures Run(Machine(T1, k, busy, another), v, valid, hasAction, n, done)
         == Stepped(Machine(S1, |CMDS|, busy, another), valid, done + CmdTail(k))
    decreases |CMDS| - k
  {
    if k + 1 < |CMDS| {
      CommandTriple(k, busy, another, v, valid, hasAction, n, done);
      CommandsFrom(k + 1, busy, another, v, valid, hasAction, n - 1 - 1 - 1,
                   done + [Send(CMD_CONTROL, NACK_ONLY)] + [Send(CMDS[k], STOP_NACK)] + [Send(ADDR_W, START_NACK)]);
      CmdTailCons(k, done);
    } else {
      LastCommand(k, busy, another, v, valid, hasAction, n, done);
    }
  }

  /** The command phase: from S0, the six window commands, each its own transfer,
      in 18 interrupts, ending in S1 with i = 6. */
  lemma CommandPhase(i: nat, busy: bool, another: bool, v: View, valid: bool, hasAction: bool, n: nat, done: seq<Effect>)
    requires WellFormed(v) && n == 3 * |CMDS|
    ensures Run(Machine(S0, i, busy, another), v, valid, hasAction, n, done)
         == Stepped(Machine(S1, |CMDS|, busy, another), valid, done + CmdSequence(CMDS))
  {
    var d1 := done + [Send(ADDR_W, START_NACK)];
    RunS0(i, busy, another, v, valid, hasAction, n, done);
    CommandsFrom(0, busy, another, v, valid, hasAction, n - 1, d1);
    CmdTailIsSequence(0);
    assert CMDS[0..] == CMDS;
    assert d1 + CmdTail(0) == done + CmdSequence(CMDS);
  }

  /** The data records from frame index k on. */
  ghost function SliceSends(v: View, k: nat): (out: seq<Effect>)
    requires WellFormed(v) && k <= FRAME_SIZE
    decreases FRAME_SIZE - k
  {
    if k == FRAME_SIZE then [] else [SliceSend(v, k)] + SliceSends(v, k + 1)
  }

  lemma {:induction false} SliceSendsShape(v: View, k: nat)
    requires WellFormed(v) && k <= FRAME_SIZE
    ensures |SliceSends(v, k)| == FRAME_SIZE - k
    ensures forall j :: k <= j < FRAME_SIZE ==> SliceSends(v, k)[j - k] == SliceSend(v, j)
    decreases FRAME_SIZE - k
  {
    if k < FRAME_SIZE {
      SliceSendsShape(v, k + 1);
      var ss := SliceSends(v, k);
      forall j | k < j < FRAME_SIZE
        ensures ss[j - k] == SliceSend(v, j)
      {
        assert ss[j - k] == SliceSends(v, k + 1)[j - (k + 1)];
      }
    }
  }

  lemma SliceSendsCons(v: View, k: nat, done: seq<Effect>)
    requires WellFormed(v) && k < FRAME_SIZE
    ensures done + [SliceSend(v, k)] + SliceSends(v, k + 1) == done + SliceSends(v, k)
  {
  }

  /** The last data record ends the frame in S3. */
  lemma LastSlice(k: nat, busy: bool, another: bool, v: View, valid: bool, hasAction: bool, n: nat, done: seq<Effect>)
    requires WellFormed(v) && k + 1 == FRAME_SIZE && n == FRAME_SIZE - k
    requires k % WIDTH == 0 || (k > 0 && valid == ValidThrough(v, k - 1))
    ensures Run(Machine(U0, k, busy, another), v, valid, hasAction, n, done)
         == Stepped(Machine(S3, FRAME_SIZE, busy, another), ValidThrough(v, FRAME_SIZE - 1), done + SliceSends(v, k))
  {
    RunU0Last(k, busy, another, v, valid, hasAction, n, done);
    SliceSendsCons(v, k, done);
    assert done + [SliceSend(v, k)] + [] == done + [SliceSend(v, k)];
  }

  /** One slice of the streaming phase in front of the rest of it. */
  lemma StreamStep(k: nat, busy: bool, another: bool, v: View, valid: bool, hasAction: bool, n: nat, done: seq<Effect>)
    requires WellFormed(v) && k + 1 < FRAME_SIZE && n == FRAME_SIZE - k
    requires k % WIDTH == 0 || (k > 0 && valid == ValidThrough(v, k - 1))
    requires Run(Machine(U0, k + 1, busy, another), v, ValidThrough(v, k), hasAction, n - 1, done + [SliceSend(v, k)])
          == Stepped(Machine(S3, FRAME_SIZE, busy, another), ValidThrough(v, FRAME_SIZE - 1), done + [SliceSend(v, k)] + SliceSends(v, k + 1))
    ensures Run(Machine(U0, k, busy, another), v, valid, hasAction, n, done)
         == Stepped(Machine(S3, FRAME_SIZE, busy, another), ValidThrough(v, FRAME_SIZE - 1), done + SliceSends(v, k))
  {
    RunU0(k, busy, another, v, valid, hasAction, n, done);
    SliceSendsCons(v, k, done);
  }

  /** The streaming phase: from U0 with i = k, one interrupt per remaining slice,
      each painting SliceAt, ending in S3 with i = 1024. */
  lemma {:induction false} Streaming(k: nat, busy: bool, another: bool, v: View, valid: bool, hasAction: bool, n: nat, done: seq<Effect>)
    requires WellFormed(v) && k < FRAME_SIZE && n == FRAME_SIZE - k
    requires k % WIDTH == 0 || (k > 0 && valid == ValidThrough(v, k - 1))
    ensures Run(Machine(U0, k, busy, another), v, valid, hasAction, n, done)
         == Stepped(Machine(S3, FRAME_SIZE, busy, another), ValidThrough(v, FRAME_SIZE - 1), done + SliceSends(v, k))
    decreases FRAME_SIZE - k
  {
    if k + 1 != FRAME_SIZE {
      Streaming(k + 1, busy, another, v, ValidThrough(v, k), hasAction, n - 1, done + [SliceSend(v, k)]);
      StreamStep(k, busy, another, v, valid, hasAction, n, done);
    } else {
      LastSlice(k, busy, another, v, valid, hasAction, n, done);
    }
  }

  /** Every record of one frame, in order: the window commands, the data transfer's
      address and control byte, and the 1024 slices. */
  ghost function FrameSends(v: View): seq<Effect>
    requires WellFormed(v)
  {
    CmdSequence(CMDS) + [Send(ADDR_W, START_NACK), Send(DATA_CONTROL, NACK_ONLY)] + SliceSends(v, 0)
  }

  /** The number of interrupts a frame takes. */
  const FRAME_STEPS: nat := 3 * |CMDS| + 2 + FRAME_SIZE

  lemma FrameSendsSplit(v: View, done: seq<Effect>)
    requires WellFormed(v)
    ensures done + CmdSequence(CMDS) + [Send(ADDR_W, START_NACK)] + [Send(DATA_CONTROL, NACK_ONLY)] + SliceSends(v, 0)
         == done + FrameSends(v)
  {
  }

  /** A full scan: from S0, FRAME_STEPS interrupts push exactly FrameSends and end in
      S3 with i = 1024, with nothing disarmed or called back. */
  lemma FullScan(i: nat, busy: bool, another: bool, v: View, valid: bool, hasAction: bool, done: seq<Effect>)
    requires WellFormed(v)
    ensures Run(Machine(S0, i, busy, another), v, valid, hasAction, FRAME_STEPS, done)
         == Stepped(Machine(S3, FRAME_SIZE, busy, another), ValidThrough(v, FRAME_SIZE - 1), done + FrameSends(v))
  {
    var m := Machine(S0, i, busy, another);
    var d1 := done + CmdSequence(CMDS);
    var d2 := d1 + [Send(ADDR_W, START_NACK)];
    var d3 := d2 + [Send(DATA_CONTROL, NACK_ONLY)];
    CommandPhase(i, busy, another, v, valid, hasAction, 3 * |CMDS|, done);
    RunAdd(m, v, valid, hasAction, 3 * |CMDS|, 2 + FRAME_SIZE, done);
    RunS1(|CMDS|, busy, another, v, valid, hasAction, 2 + FRAME_SIZE, d1);
    RunS2(|CMDS|, busy, another, v, valid, hasAction, 2 + FRAME_SIZE - 1, d2);
    Streaming(0, busy, another, v, valid, hasAction, 2 + FRAME_SIZE - 1 - 1, d3);
    FrameSendsSplit(v, done);
  }

  /** The six window commands push 18 records, all sends, with STOP on every third. */
  lemma CommandStops()
    ensures |CmdSequence(CMDS)| == 18
    ensures forall k :: 0 <= k < 18 ==>
              CmdSequence(CMDS)[k].Send? && (CmdSequence(CMDS)[k].opts.stop <==> k % 3 == 2)
  {
    CmdSequenceShape(CMDS);
    var cs := CmdSequence(CMDS);
    forall k | 0 <= k < 18
      ensures cs[k].Send? && (cs[k].opts.stop <==> k % 3 == 2)
    {
      var q := k / 3;
      assert k == 3 * q || k == 3 * q + 1 || k == 3 * q + 2;
    }
  }

  /** Where each record of a frame comes from: the 18 command records, the data
      transfer's address and control byte at 18 and 19, and slice j at 20 + j. */
  lemma FrameLayout(v: View)
    requires WellFormed(v)
    ensures |CmdSequence(CMDS)| == 18
    ensures |FrameSends(v)| == FRAME_STEPS == 1044
    ensures forall k :: 0 <= k < 18 ==> FrameSends(v)[k] == CmdSequence(CMDS)[k]
    ensures FrameSends(v)[18] == Send(ADDR_W, START_NACK) && FrameSends(v)[19] == Send(DATA_CONTROL, NACK_ONLY)
    ensures forall j :: 0 <= j < FRAME_SIZE ==> FrameSends(v)[20 + j] == SliceSend(v, j)
  {
    var out, cs, ss := FrameSends(v), CmdSequence(CMDS), SliceSends(v, 0);
    CmdSequenceShape(CMDS);
    SliceSendsShape(v, 0);
    var head := cs + [Send(ADDR_W, START_NACK), Send(DATA_CONTROL, NACK_ONLY)];
    assert out == head + ss;
    forall j | 0 <= j < FRAME_SIZE
      ensures out[20 + j] == SliceSend(v, j)
    {
      assert out[20 + j] == ss[j];
    }
    forall k | 0 <= k < 18
      ensures out[k] == cs[k]
    {
      assert out[k] == head[k];
    }
  }

  /** The command records of a frame: STOP on every third. */
  lemma CommandRecord(v: View, k: nat)
    requires WellFormed(v) && k < 18
    ensures k < |FrameSends(v)| && FrameSends(v)[k].Send? && (FrameSends(v)[k].opts.stop <==> k % 3 == 2)
  {
    FrameLayout(v);
    CommandStops();
    assert FrameSends(v)[k] == CmdSequence(CMDS)[k];
  }

  /** The slice records of a frame: STOP on the last one only. */
  lemma SliceRecord(v: View, j: nat)
    requires WellFormed(v) && j < FRAME_SIZE
    ensures 20 + j < |FrameSends(v)| && FrameSends(v)[20 + j].Send?
    ensures FrameSends(v)[20 + j].opts.stop <==> j == FRAME_SIZE - 1
  {
    FrameLayout(v);
    assert FrameSends(v)[20 + j] == SliceSend(v, j);
  }

  /** Record k of a frame is a send, with STOP on the six commands and on the last
      slice only. */
  lemma FrameRecord(v: View, k: nat)
    requires WellFormed(v) && k < FRAME_STEPS
    ensures k < |FrameSends(v)|
    ensures FrameSends(v)[k].Send? && (FrameSends(v)[k].opts.stop <==> (k < 18 && k % 3 == 2) || k == 1043)
  {
    if k < 18 {
      CommandRecord(v, k);
    } else if k < 20 {
      FrameLayout(v);
      if k == 18 {
        assert FrameSends(v)[k] == Send(ADDR_W, START_NACK);
      } else {
        assert FrameSends(v)[k] == Send(DATA_CONTROL, NACK_ONLY);
      }
    } else {
      SliceRecord(v, k - 20);
      assert 20 + (k - 20) == k;
    }
  }

  /** A frame is 1044 records, all sends, so it pushes 1044 words; STOP falls on
      the six commands and on the last slice only. */
  lemma FrameShape(v: View)
    requires WellFormed(v)
    ensures |Words(FrameSends(v))| == |FrameSends(v)| == 1044
    ensures forall k :: 0 <= k < |FrameSends(v)| ==>
              FrameSends(v)[k].Send? && (FrameSends(v)[k].opts.stop <==> (k < 18 && k % 3 == 2) || k == 1043)
  {
    var out := FrameSends(v);
    FrameLayout(v);
    forall k | 0 <= k < |out|
      ensures out[k].Send? && (out[k].opts.stop <==> (k < 18 && k % 3 == 2) || k == 1043)
    {
      FrameRecord(v, k);
    }
    WordsOfSends(out);
  }

  /** k display() calls in a row. */
  function Requests(m: Machine, k: nat): Machine
    decreases k
  {
    if k == 0 then m else Requests(RequestScan(m), k - 1)
  }

  /** While busy, any number k >= 1 of display() calls has the effect of one: they
      set `another` and change nothing else. */
  lemma {:induction false} RequestsCoalesce(m: Machine, k: nat)
    requires m.busy && k >= 1
    ensures Requests(m, k) == m.(another := true)
    decreases k
  {
    if k > 1 {
      RequestsCoalesce(RequestScan(m), k - 1);
    }
  }

  /** A request during a scan, other than at its last interrupt, does not change
      what the scan pushes; it only leaves `another` set. */
  lemma RequestCommutes(m: Machine, v: View, valid: bool, hasAction: bool)
    requires WellFormed(v) && WellPhased(m) && m.busy && Scanning(m.state) && m.state != S3
    ensures var r := Step(m, v, valid, hasAction);
      Step(RequestScan(m), v, valid, hasAction) == Stepped(r.m.(another := true), r.valid, r.out)
  {
  }

  /** The last scan: a full frame from S0 with no further request pending, then
      the interrupt that disarms and calls the action function. */
  lemma LastScan(i: nat, v: View, valid: bool, hasAction: bool, n: nat, done: seq<Effect>)
    requires WellFormed(v) && n == FRAME_STEPS + 1
    ensures Run(Machine(S0, i, true, false), v, valid, hasAction, n, done)
         == Stepped(Machine(S4, FRAME_SIZE, false, false), ValidThrough(v, FRAME_SIZE - 1),
                    done + FrameSends(v) + Finale(hasAction))
  {
    FullScan(i, true, false, v, valid, hasAction, done);
    RunAdd(Machine(S0, i, true, false), v, valid, hasAction, FRAME_STEPS, 1, done);
    RunS3Done(FRAME_SIZE, v, ValidThrough(v, FRAME_SIZE - 1), hasAction, 1, done + FrameSends(v));
  }

  /** Coalescing: k >= 1 display() calls that arrive while a frame is painted make
      the end of that frame run exactly one more full scan and then go idle, with the
      TX source disarmed and the action function called once. */
  lemma Coalescing(m: Machine, k: nat, v: View, valid: bool, hasAction: bool, done: seq<Effect>)
    requires WellFormed(v) && m.busy && m.state == S3 && k >= 1
    ensures WellPhased(Requests(m, k))
    ensures Run(Requests(m, k), v, valid, hasAction, 1 + FRAME_STEPS + 1, done)
         == Stepped(Machine(S4, FRAME_SIZE, false, false), ValidThrough(v, FRAME_SIZE - 1),
                    done + FrameSends(v) + Finale(hasAction))
  {
    RequestsCoalesce(m, k);
    RunS3Again(m.i, v, valid, hasAction, 1 + FRAME_STEPS + 1, done);
    LastScan(m.i, v, valid, hasAction, 1 + FRAME_STEPS + 1 - 1, done);
  }

  /** After the last scan the machine is idle and coherent with the TX source
      disarmed: another interrupt would panic, and a display() call starts a fresh
      scan from S0. */
  lemma IdleAfterScan(i: nat, v: View, valid: bool, hasAction: bool)
    requires WellFormed(v)
    ensures Step(Machine(S4, i, false, false), v, valid, hasAction).Halted?
    ensures Coherent(Machine(S4, i, false, false), false)
    ensures RequestScan(Machine(S4, i, false, false)) == Machine(S0, i, true, false)
  {
  }
}
