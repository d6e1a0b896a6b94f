/** Whole reads of the MPU6050 driver: acc_gyro_read followed by the handler
    invocations that the fourteen received bytes trigger (lib/MPU6050/MPU6050.c). */
module Mpu6050Read {
  import opened Codec
  import opened Nbi
  import opened Mpu6050

  /** The handler applied to each received byte in turn, from the registers r: the
      final registers and every effect in order. */
  function Feed(r: Regs, got: seq<Byte>, hasAction: bool): (s: Reaction)
    requires WellRegs(r)
    ensures WellRegs(s.regs)
    decreases |got|
  {
    if got == [] then Reaction(r, [])
    else
      var p := Feed(r, got[..|got| - 1], hasAction);
      var q := HandlerStep(p.regs, got[|got| - 1], hasAction);
      Reaction(q.regs, p.out + q.out)
  }

  /** The requests the handler sends for the first n received bytes. */
  function Requests(n: nat): seq<Effect>
  {
    if n == 0 then [] else Requests(n - 1) + FollowUp(n - 1)
  }

  /** The values after the bytes got: slot j holds Combine of bytes 2j and 2j+1 once
      both have arrived, and its old value before. */
  ghost function Filled(d: seq<U16>, got: seq<Byte>): (f: seq<U16>)
    requires |d| == N_VALUES
    ensures |f| == N_VALUES
  {
    seq(N_VALUES, j requires 0 <= j < N_VALUES =>
      if 2 * j + 1 < |got| then Combine(got[2 * j], got[2 * j + 1]) else d[j])
  }

  /** Filled with one more byte: an odd byte count completes slot (n-1)/2. */
  lemma FilledSnoc(d: seq<U16>, got: seq<Byte>, high: Byte)
    requires |d| == N_VALUES && 0 < |got| <= 2 * N_VALUES
    requires |got| % 2 == 0 ==> got[|got| - 2] == high
    ensures var n := |got|; var init := Filled(d, got[..n - 1]);
      Filled(d, got) == if n % 2 == 1 then init else init[(n - 1) / 2 := Combine(high, got[n - 1])]
  {
    var n := |got|;
    var init := Filled(d, got[..n - 1]);
    if n % 2 == 0 {
      var t := (n - 1) / 2;
      assert 2 * t + 1 == n - 1;
      forall j | 0 <= j < N_VALUES
        ensures Filled(d, got)[j] == init[t := Combine(high, got[n - 1])][j]
      {
        if j == t {
          assert got[2 * j] == high;
        }
      }
    } else {
      forall j | 0 <= j < N_VALUES
        ensures Filled(d, got)[j] == init[j]
      {
        assert 2 * j + 1 < n <==> 2 * j + 1 < n - 1;
      }
    }
  }

  lemma Parity(n: nat)
    requires n > 0
    ensures (n - 1) % 2 == 1 - n % 2 && (n - 1) / 2 == (if n % 2 == 0 then n / 2 - 1 else n / 2)
  {
  }

  /** One handler step inside the first thirteen bytes of a read. */
  lemma PrefixStep(p: Reaction, d: seq<U16>, got: seq<Byte>, hasAction: bool)
    requires WellRegs(p.regs) && |d| == N_VALUES && 0 < |got| <= LAST_STATE
    requires p.regs.state == |got| - 1 && p.regs.data == Filled(d, got[..|got| - 1])
    requires |got| % 2 == 0 ==> p.regs.high == got[|got| - 2]
    requires p.out == Requests(|got| - 1)
    ensures var q := HandlerStep(p.regs, got[|got| - 1], hasAction);
      && q.regs.state == |got|
      && q.regs.data == Filled(d, got)
      && (|got| % 2 == 1 ==> q.regs.high == got[|got| - 1])
      && p.out + q.out == Requests(|got|)
  {
    var n := |got|;
    StepAdvances(p.regs, got[n - 1], hasAction);
    StepStores(p.regs, got[n - 1], hasAction);
    Parity(n);
    FilledSnoc(d, got, p.regs.high);
  }

  /** The first n <= 13 bytes of a read from state 0: the handler advances to n,
      has requested n more bytes, has filled the completed pairs, and holds the
      latest even byte as the high byte. */
  lemma {:induction false} FeedPrefix(r: Regs, got: seq<Byte>, hasAction: bool)
    requires WellRegs(r) && r.state == 0 && |got| <= LAST_STATE
    ensures var s := Feed(r, got, hasAction);
      && s.regs.state == |got|
      && s.regs.data == Filled(r.data, got)
      && (|got| % 2 == 1 ==> s.regs.high == got[|got| - 1])
      && s.out == Requests(|got|)
    decreases |got|
  {
    if got != [] {
      var n := |got|;
      var init := got[..n - 1];
      FeedPrefix(r, init, hasAction);
      var p := Feed(r, init, hasAction);
      if n % 2 == 0 {
        assert init[n - 2] == got[n - 2];
      }
      PrefixStep(p, r.data, got, hasAction);
    }
  }

  /** A whole read: fourteen bytes from state 0 leave the handler at LAST_STATE with
      value j equal to Combine of bytes 2j and 2j+1, after thirteen requests, the
      last with STOP, and the completion. */
  lemma Transaction(r: Regs, got: seq<Byte>, hasAction: bool)
    requires WellRegs(r) && r.state == 0 && |got| == 2 * N_VALUES
    ensures var s := Feed(r, got, hasAction);
      && s.regs.state == LAST_STATE
      && s.regs.data == seq(N_VALUES, j requires 0 <= j < N_VALUES => Combine(got[2 * j], got[2 * j + 1]))
      && s.out == Requests(LAST_STATE) + Completion(hasAction)
  {
    var init := got[..LAST_STATE];
    FeedPrefix(r, init, hasAction);
    var p := Feed(r, init, hasAction);
    StepStores(p.regs, got[LAST_STATE], hasAction);
    StepAdvances(p.regs, got[LAST_STATE], hasAction);
    FilledSnoc(r.data, got, p.regs.high);
    assert Filled(r.data, got) == seq(N_VALUES, j requires 0 <= j < N_VALUES => Combine(got[2 * j], got[2 * j + 1]));
  }

  /** The properties of a record counted over a read's traffic. */
  datatype Mark = Sent | Stopped | Replied | Disarmed | Called

  predicate Marked(e: Effect, m: Mark)
  {
    match m
    case Sent => e.Send?
    case Stopped => e.Send? && e.opts.stop
    case Replied => e.Send? && e.opts.reply
    case Disarmed => e.Disarm?
    case Called => e.Callback?
  }

  /** The number of effects in out with the mark m. */
  function Count(out: seq<Effect>, m: Mark): (c: nat)
    ensures c <= |out|
  {
    if out == [] then 0 else (if Marked(out[0], m) then 1 else 0) + Count(out[1..], m)
  }

  lemma {:induction false} CountAppend(a: seq<Effect>, b: seq<Effect>, m: Mark)
    ensures Count(a + b, m) == Count(a, m) + Count(b, m)
  {
    if a == [] {
      assert a + b == b;
    } else {
      assert (a + b)[1..] == a[1..] + b;
      CountAppend(a[1..], b, m);
    }
  }

  /** Every send pushes one word: the words of out are as many as its sends. */
  lemma {:induction false} WordsCount(out: seq<Effect>)
    ensures |Words(out)| == Count(out, Sent)
  {
    if out != [] {
      WordsCount(out[1..]);
    }
  }

  lemma CountSingle(e: Effect, m: Mark)
    ensures Count([e], m) == if Marked(e, m) then 1 else 0
  {
    assert [e][1..] == [];
  }

  /** n <= 13 requests are n sends, all with REPLY, and the thirteenth alone has
      STOP. */
  lemma {:induction false} RequestCounts(n: nat)
    requires n <= LAST_STATE
    ensures Count(Requests(n), Sent) == n && Count(Requests(n), Replied) == n
    ensures Count(Requests(n), Stopped) == if n == LAST_STATE then 1 else 0
    ensures Count(Requests(n), Disarmed) == 0 && Count(Requests(n), Called) == 0
  {
    if n > 0 {
      RequestCounts(n - 1);
      var f := FollowUp(n - 1);
      forall m: Mark
        ensures Count(Requests(n), m) == Count(Requests(n - 1), m) + Count(f, m)
      {
        CountAppend(Requests(n - 1), f, m);
      }
      forall m: Mark
        ensures Count(f, m) == if Marked(f[0], m) then 1 else 0
      {
        CountSingle(f[0], m);
      }
    }
  }

  lemma OpeningCounts()
    ensures Count(Opening(), Sent) == 4 && Count(Opening(), Replied) == 1
    ensures Count(Opening(), Stopped) == 0 && Count(Opening(), Disarmed) == 0 && Count(Opening(), Called) == 0
  {
    var o := Opening();
    assert o[1..][1..][1..][1..] == [];
  }

  lemma CompletionCounts(hasAction: bool)
    ensures Count(Completion(hasAction), Sent) == 0 && Count(Completion(hasAction), Disarmed) == 1
    ensures Count(Completion(hasAction), Called) == if hasAction then 1 else 0
    ensures Count(Completion(hasAction), Stopped) == 0 && Count(Completion(hasAction), Replied) == 0
  {
    var c := Completion(hasAction);
    assert c[1..] == if hasAction then [Callback] else [];
    if hasAction {
      assert c[1..][1..] == [];
    }
  }

  /** The traffic of one read: acc_gyro_read's four records and the handler's
      effects for the fourteen bytes. */
  function Traffic(r: Regs, got: seq<Byte>, hasAction: bool): seq<Effect>
    requires WellRegs(r)
  {
    Opening() + Feed(r, got, hasAction).out
  }

  /** One read pushes 17 words and receives 14 bytes, with one STOP, as many
      REPLY requests as bytes received, one disarm, and the action function called
      once when set. */
  lemma TransactionCounts(r: Regs, got: seq<Byte>, hasAction: bool)
    requires WellRegs(r) && r.state == 0 && |got| == 2 * N_VALUES
    ensures var t := Traffic(r, got, hasAction);
      && |Words(t)| == Count(t, Sent) == 17
      && Count(t, Stopped) == 1
      && Count(t, Replied) == |got|
      && Count(t, Disarmed) == 1
      && Count(t, Called) == if hasAction then 1 else 0
  {
    Transaction(r, got, hasAction);
    var t := Traffic(r, got, hasAction);
    var rq, c := Requests(LAST_STATE), Completion(hasAction);
    assert t == Opening() + (rq + c);
    RequestCounts(LAST_STATE);
    OpeningCounts();
    CompletionCounts(hasAction);
    forall m: Mark
      ensures Count(t, m) == Count(Opening(), m) + Count(rq, m) + Count(c, m)
    {
      CountAppend(Opening(), rq + c, m);
      CountAppend(rq, c, m);
    }
    WordsCount(t);
  }
}
