/**
 * The SPI transport (src/sd_spi.c): command framing, the bounded R1 poll,
 * response decoding by response kind, chip-select handling, and the
 * binding of the transport to a host.
 *
 * Each operation that drives the bus is a method over the abstract SpiBus,
 * proved equal to a pure function of the card's byte script; the
 * properties the transport promises are proved about those functions.
 */
module SdSpi {
  import opened SdTypes
  import opened SdDefines
  import opened SdHost

  // ========== Byte order ==========

  /** The 32-bit word whose big-endian bytes are b0 b1 b2 b3. */
  function BigEndian(b0: bv8, b1: bv8, b2: bv8, b3: bv8): bv32 {
    ((b0 as bv32) << 24) | ((b1 as bv32) << 16) | ((b2 as bv32) << 8) | (b3 as bv32)
  }

  /** The four bytes of w, most significant first, as the frame carries them. */
  function WordBytes(w: bv32): (b: seq<bv8>)
    ensures |b| == 4 && BigEndian(b[0], b[1], b[2], b[3]) == w
  {
    [((w >> 24) & 0xFF) as bv8, ((w >> 16) & 0xFF) as bv8, ((w >> 8) & 0xFF) as bv8, (w & 0xFF) as bv8]
  }

  // ========== Command frame ==========

  /** The fixed CRC7-and-end-bit byte: real values for CMD0 and CMD8 only. */
  function FrameCrc(cmd: bv8): bv8 {
    if cmd == 0 then 0x95 else if cmd == 8 then 0x87 else 0x01
  }

  /** The 6-byte command frame of a request (its layout is FrameLayout). */
  function Frame(rq: Request): (f: seq<bv8>)
    ensures |f| == 6
  {
    var cmd := rq.cmd & 0x3F;
    [0x40 | cmd] + WordBytes(rq.arg) + [FrameCrc(cmd)]
  }

  /**
   * The frame carries start bit 0 and transmission bit 1 over the six index
   * bits, then the argument big-endian, then the CRC byte whose low bit is
   * the end bit: 0x95 for CMD0, 0x87 for CMD8 and a placeholder 0x01 for
   * every other command.
   */
  lemma FrameLayout(rq: Request)
    ensures var f := Frame(rq);
      && f[0] >> 6 == 1 && f[0] & 0x3F == rq.cmd & 0x3F
      && BigEndian(f[1], f[2], f[3], f[4]) == rq.arg
      && f[5] & 1 == 1
      && (rq.cmd & 0x3F == 0 ==> f[5] == 0x95)
      && (rq.cmd & 0x3F == 8 ==> f[5] == 0x87)
      && (rq.cmd & 0x3F != 0 && rq.cmd & 0x3F != 8 ==> f[5] == 0x01)
  {
    var f := Frame(rq);
    assert f[1..5] == WordBytes(rq.arg);
  }

  /** Every command the driver issues is framed with its own index. */
  lemma {:induction false} FrameKeepsDriverIndices(rq: Request)
    requires rq.cmd in CommandIndices
    ensures Frame(rq)[0] == 0x40 | rq.cmd
  {
    CommandIndicesFitSixBits();
    FrameLayout(rq);
  }

  // ========== R1 poll ==========

  /** The outcome of a poll: the byte returned, the bus calls made, the script left. */
  datatype PollOut = PollOut(r1: bv8, events: seq<BusEvent>, rest: seq<bv8>)

  /** The number of byte exchanges in a trace. */
  function Exchanges(es: seq<BusEvent>): nat {
    if es == [] then 0 else (if es[0].Xchg? then 1 else 0) + Exchanges(es[1..])
  }

  /** The number of delay calls in a trace. */
  function Delays(es: seq<BusEvent>): nat {
    if es == [] then 0 else (if es[0].Delay? then 1 else 0) + Delays(es[1..])
  }

  lemma {:induction false} CountsAppend(a: seq<BusEvent>, b: seq<BusEvent>)
    ensures Exchanges(a + b) == Exchanges(a) + Exchanges(b)
    ensures Delays(a + b) == Delays(a) + Delays(b)
  {
    if a != [] {
      assert (a + b)[1..] == a[1..] + b;
      CountsAppend(a[1..], b);
    } else {
      assert a + b == b;
    }
  }

  /** A poll event: an exchange clocking out 0xFF, or a 1 ms delay. */
  predicate PollEvent(e: BusEvent) {
    (e.Xchg? && e.tx == 0xFF) || e == Delay(1)
  }

  /**
   * wait_r1 as a function of the card's byte script `q`: poll `t` times;
   * each poll exchanges 0xFF for the next byte and stops at the first byte
   * with bit 7 clear; each other poll is followed by a 1 ms delay when
   * there is a delay hook. Its properties are PollSpec.
   */
  function Poll(q: seq<bv8>, t: nat, delays: bool): PollOut
    decreases t
  {
    if t == 0 then
      PollOut(0xFF, [], q)
    else
      var v := Incoming(q, 0);
      if v & 0x80 == 0 then
        PollOut(v, [Xchg(0xFF, v)], Drop(q, 1))
      else
        var tail := Poll(Drop(q, 1), t - 1, delays);
        PollOut(tail.r1, PollLead(v, delays) + tail.events, tail.rest)
  }

  /** The calls of one poll that did not yield R1. */
  function PollLead(v: bv8, delays: bool): seq<BusEvent> {
    [Xchg(0xFF, v)] + (if delays then [Delay(1)] else [])
  }

  lemma PollLeadCounts(v: bv8, delays: bool)
    ensures Exchanges(PollLead(v, delays)) == 1
    ensures Delays(PollLead(v, delays)) == if delays then 1 else 0
  {
    var lead := PollLead(v, delays);
    var d: seq<BusEvent> := [Delay(1)];
    assert Exchanges(d) == 0 && Delays(d) == 1 by {
      assert d[1..] == [];
    }
    if delays {
      assert lead == [Xchg(0xFF, v)] + d;
      assert lead[1..] == d;
    } else {
      assert lead[1..] == [];
    }
  }

  lemma DropDrop(q: seq<bv8>, n: nat)
    ensures Drop(Drop(q, 1), n) == Drop(q, 1 + n)
  {
  }

  /**
   * The poll returns 0xFF or a byte with bit 7 clear, makes at most `t`
   * exchanges, and consumes one script byte per exchange.
   */
  lemma {:induction false} PollShape(q: seq<bv8>, t: nat, delays: bool)
    decreases t
    ensures var p := Poll(q, t, delays);
      && (p.r1 == 0xFF || p.r1 & 0x80 == 0)
      && Exchanges(p.events) <= t
      && p.rest == Drop(q, Exchanges(p.events))
  {
    if t > 0 && Incoming(q, 0) & 0x80 != 0 {
      var v := Incoming(q, 0);
      var tail := Poll(Drop(q, 1), t - 1, delays);
      PollShape(Drop(q, 1), t - 1, delays);
      CountsAppend(PollLead(v, delays), tail.events);
      PollLeadCounts(v, delays);
      DropDrop(q, Exchanges(tail.events));
    } else if t > 0 {
      assert Exchanges([Xchg(0xFF, Incoming(q, 0))]) == 1;
    }
  }

  /** Every call the poll makes sends 0xFF or is a 1 ms delay. */
  lemma {:induction false} PollOnlyPollEvents(q: seq<bv8>, t: nat, delays: bool)
    decreases t
    ensures forall i :: 0 <= i < |Poll(q, t, delays).events| ==> PollEvent(Poll(q, t, delays).events[i])
  {
    if t > 0 && Incoming(q, 0) & 0x80 != 0 {
      var lead := PollLead(Incoming(q, 0), delays);
      var tail := Poll(Drop(q, 1), t - 1, delays);
      PollOnlyPollEvents(Drop(q, 1), t - 1, delays);
      var es := lead + tail.events;
      forall i | 0 <= i < |es| ensures PollEvent(es[i]) {
        if i >= |lead| {
          assert es[i] == tail.events[i - |lead|];
          assert PollEvent(tail.events[i - |lead|]);
        } else if i == 0 {
          assert es[i] == lead[0] == Xchg(0xFF, Incoming(q, 0));
        } else {
          assert delays && lead == [Xchg(0xFF, Incoming(q, 0)), Delay(1)];
          assert es[i] == Delay(1);
        }
      }
    } else if t > 0 {
      assert PollEvent(Xchg(0xFF, Incoming(q, 0)));
    }
  }

  /**
   * The poll returns 0xFF exactly when none of the first `t` script bytes
   * has bit 7 clear; it has then made exactly `t` exchanges and, with a
   * delay hook, `t` delays.
   */
  lemma {:induction false} PollTimeout(q: seq<bv8>, t: nat, delays: bool)
    decreases t
    ensures var p := Poll(q, t, delays);
      && (p.r1 == 0xFF <==> forall j :: 0 <= j < t ==> Incoming(q, j) & 0x80 != 0)
      && (p.r1 == 0xFF ==> Exchanges(p.events) == t && Delays(p.events) == (if delays then t else 0))
  {
    if t > 0 && Incoming(q, 0) & 0x80 != 0 {
      var v := Incoming(q, 0);
      var q' := Drop(q, 1);
      var tail := Poll(q', t - 1, delays);
      PollTimeout(q', t - 1, delays);
      CountsAppend(PollLead(v, delays), tail.events);
      PollLeadCounts(v, delays);
      if tail.r1 == 0xFF {
        forall j | 0 <= j < t ensures Incoming(q, j) & 0x80 != 0 {
          if j > 0 {
            IncomingShift(q, j - 1);
          }
        }
      } else {
        var j :| 0 <= j < t - 1 && Incoming(q', j) & 0x80 == 0;
        IncomingShift(q, j);
      }
    }
  }

  /** The script after one byte, read at j, is the script read at j + 1. */
  lemma IncomingShift(q: seq<bv8>, j: nat)
    ensures Incoming(Drop(q, 1), j) == Incoming(q, j + 1)
  {
  }

  /**
   * When the poll yields R1 after n exchanges, R1 is the n-th script byte,
   * the n-1 bytes before it all had bit 7 set, and there was one delay per
   * failed poll when there is a delay hook.
   */
  lemma {:induction false} PollFound(q: seq<bv8>, t: nat, delays: bool)
    decreases t
    ensures var p := Poll(q, t, delays);
      p.r1 != 0xFF ==>
        && 1 <= Exchanges(p.events)
        && p.r1 == Incoming(q, Exchanges(p.events) - 1)
        && (forall j :: 0 <= j < Exchanges(p.events) - 1 ==> Incoming(q, j) & 0x80 != 0)
        && Delays(p.events) == (if delays then Exchanges(p.events) - 1 else 0)
  {
    if t > 0 {
      var v := Incoming(q, 0);
      if v & 0x80 == 0 {
        assert Exchanges([Xchg(0xFF, v)]) == 1;
        assert Delays([Xchg(0xFF, v)]) == 0;
      } else {
        var q' := Drop(q, 1);
        var tail := Poll(q', t - 1, delays);
        PollFound(q', t - 1, delays);
        CountsAppend(PollLead(v, delays), tail.events);
        PollLeadCounts(v, delays);
        if tail.r1 != 0xFF {
          var n := Exchanges(tail.events);
          IncomingShift(q, n - 1);
          forall j | 0 <= j < n ensures Incoming(q, j) & 0x80 != 0 {
            if j > 0 {
              IncomingShift(q, j - 1);
            }
          }
        }
      }
    }
  }

  /** Whether the host the SPI context points at has a delay hook. */
  predicate HasDelayHook(h: Host)
    reads h
  {
    h.ops.Some? && h.ops.value.hasDelay
  }

  /** wait_r1(spi_ctx, t): the `while (t--)` count-down poll. */
  method WaitR1(ctx: SpiCtx, t0: nat) returns (r1: bv8)
    requires ctx.spi != null && ctx.host != null
    modifies ctx.spi
    ensures r1 == Poll(old(ctx.spi.incoming), t0, HasDelayHook(ctx.host)).r1
    ensures ctx.spi.incoming == Poll(old(ctx.spi.incoming), t0, HasDelayHook(ctx.host)).rest
    ensures ctx.spi.trace == old(ctx.spi.trace) + Poll(old(ctx.spi.incoming), t0, HasDelayHook(ctx.host)).events
  {
    r1 := PollBus(ctx.spi, t0, ctx.host.ops.Some? && ctx.host.ops.value.hasDelay);
  }

  /**
   * The poll continued after the calls `acc` already made: the form the
   * loop of wait_r1 keeps invariant (PollFromPoll relates it to Poll).
   */
  function PollFrom(q: seq<bv8>, t: nat, delays: bool, acc: seq<BusEvent>): PollOut
    decreases t
  {
    if t == 0 then
      PollOut(0xFF, acc, q)
    else
      var v := Incoming(q, 0);
      if v & 0x80 == 0 then
        PollOut(v, acc + [Xchg(0xFF, v)], Drop(q, 1))
      else
        PollFrom(Drop(q, 1), t - 1, delays, acc + PollLead(v, delays))
  }

  lemma {:induction false} PollFromPoll(q: seq<bv8>, t: nat, delays: bool, acc: seq<BusEvent>)
    decreases t
    ensures var p := Poll(q, t, delays);
      PollFrom(q, t, delays, acc) == PollOut(p.r1, acc + p.events, p.rest)
  {
    if t > 0 && Incoming(q, 0) & 0x80 != 0 {
      var lead := PollLead(Incoming(q, 0), delays);
      var tail := Poll(Drop(q, 1), t - 1, delays);
      PollFromPoll(Drop(q, 1), t - 1, delays, acc + lead);
      assert (acc + lead) + tail.events == acc + (lead + tail.events);
    } else if t == 0 {
      assert acc + [] == acc;
    }
  }

  /** The poll loop of wait_r1 over the primitives it calls. */
  method PollBus(spi: SpiBus, t0: nat, delays: bool) returns (r1: bv8)
    modifies spi
    ensures r1 == Poll(old(spi.incoming), t0, delays).r1
    ensures spi.incoming == Poll(old(spi.incoming), t0, delays).rest
    ensures spi.trace == old(spi.trace) + Poll(old(spi.incoming), t0, delays).events
  {
    PollFromPoll(spi.incoming, t0, delays, spi.trace);
    ghost var goal := PollFrom(spi.incoming, t0, delays, spi.trace);
    var t := t0;
    while t > 0
      invariant PollFrom(spi.incoming, t, delays, spi.trace) == goal
    {
      t := t - 1;
      var v := PollOnce(spi, delays);
      if v & 0x80 == 0 {
        return v;
      }
    }
    return 0xFF;
  }

  /** One iteration of the poll: exchange a byte; when it is not R1, wait 1 ms if there is a delay hook. */
  method PollOnce(spi: SpiBus, delays: bool) returns (v: bv8)
    modifies spi
    ensures v == Incoming(old(spi.incoming), 0)
    ensures spi.incoming == Drop(old(spi.incoming), 1)
    ensures spi.trace == old(spi.trace) + (if v & 0x80 == 0 then [Xchg(0xFF, v)] else PollLead(v, delays))
  {
    v := spi.Xchg1(0xFF);
    if v & 0x80 == 0 {
      return;
    }
    if delays {
      spi.DelayMs(1);
    }
  }

  // ========== Response decoding ==========

  /** The number of bytes read after R1 for a response kind. */
  function TrailLength(kind: ResponseKind): nat {
    match kind
    case R3 | R7 => 4
    case R2 => 16
    case _ => 0
  }

  /**
   * The words the decoder stores: NONE stores 0 in r[0]; R1, R1b and every
   * other kind store the R1 byte in r[0]; R3 and R7 store their 4 trailing
   * bytes big-endian in r[0]; R2 stores word k from bytes 12-4k..15-4k, so
   * the most significant register word arrives first and lands in r[3].
   */
  function DecodedWords(kind: ResponseKind, r1: bv8, b: seq<bv8>): (w: seq<bv32>)
    requires |b| == TrailLength(kind)
    ensures |w| == if kind == R2 then 4 else 1
  {
    match kind
    case RespNone => [0]
    case R3 | R7 => [BigEndian(b[0], b[1], b[2], b[3])]
    case R2 =>
      [BigEndian(b[12], b[13], b[14], b[15]), BigEndian(b[8], b[9], b[10], b[11]),
       BigEndian(b[4], b[5], b[6], b[7]), BigEndian(b[0], b[1], b[2], b[3])]
    case _ => [r1 as bv32]
  }

  /** A 128-bit register as the card sends it: word r[3] first, each big-endian. */
  function RegisterBytes(w: Words): (b: seq<bv8>)
    ensures |b| == 16
  {
    WordBytes(w[3]) + WordBytes(w[2]) + WordBytes(w[1]) + WordBytes(w[0])
  }

  /** Decoding an R2 response recovers the register words it carried. */
  lemma R2RoundTrip(r1: bv8, w: Words, prev: Words)
    ensures Overwrite(prev, DecodedWords(R2, r1, RegisterBytes(w))) == w
  {
    var b := RegisterBytes(w);
    assert b[..4] == WordBytes(w[3]) && b[4..8] == WordBytes(w[2]);
    assert b[8..12] == WordBytes(w[1]) && b[12..] == WordBytes(w[0]);
  }

  /** Decoding an R3/R7 response recovers the word it carried. */
  lemma R3R7RoundTrip(kind: ResponseKind, r1: bv8, x: bv32)
    requires kind == R3 || kind == R7
    ensures DecodedWords(kind, r1, WordBytes(x)) == [x]
  {
  }

  // ========== Submit ==========

  /** The poll budget: the request's timeout, or the default when it is 0. */
  function PollBudget(rq: Request): nat {
    if rq.timeoutMs != 0 then rq.timeoutMs as nat else TimeoutSdDefault as nat
  }

  /** The outcome of one submit on the wire. */
  datatype SubmitOut = SubmitOut(reply: Reply, events: seq<BusEvent>, rest: seq<bv8>)

  /**
   * spi_submit for a request, as a function of the card's byte script:
   * one draining 0xFF exchange, chip-select asserted, the frame written,
   * the R1 poll, then either a timeout (chip-select released, nothing read)
   * or the trailing response bytes read and decoded, and chip-select
   * released.
   */
  function SubmitOnWire(q: seq<bv8>, rq: Request, delays: bool): SubmitOut {
    Conclude(Incoming(q, 0), rq, Poll(Drop(q, 1), PollBudget(rq), delays))
  }

  /** The outcome of spi_submit given the drained byte and the outcome of the poll. */
  function Conclude(drain: bv8, rq: Request, p: PollOut): SubmitOut {
    var lead := [Xchg(0xFF, drain), Select(true), Wrote(Frame(rq))] + p.events;
    if p.r1 == 0xFF then
      SubmitOut(Silent, lead + [Select(false)], p.rest)
    else
      var n := TrailLength(rq.resp);
      var b := Take(p.rest, n);
      SubmitOut(Reply(Ok, p.r1, DecodedWords(rq.resp, p.r1, b)), lead + (Trailer(b) + [Select(false)]), Drop(p.rest, n))
  }

  /** The frame bytes exactly as f[6] is filled: the literal, then the CRC patches. */
  method BuildFrame(rq: Request) returns (f: seq<bv8>)
    ensures f == Frame(rq)
  {
    var cmd := rq.cmd & 0x3F;
    var a := WordBytes(rq.arg);
    f := [0x40 | cmd, a[0], a[1], a[2], a[3], 0x01];
    if cmd == 0 {
      f := f[5 := 0x95];
    }
    if cmd == 8 {
      f := f[5 := 0x87];
    }
    assert f == [0x40 | cmd] + a + [FrameCrc(cmd)];
  }

  /** The bus calls of the decoding switch: one read_ff for R2, R3 and R7, none otherwise. */
  function Trailer(b: seq<bv8>): seq<BusEvent> {
    if b == [] then [] else [ReadFF(b)]
  }

  /** The `switch (rq->resp)` of spi_submit: reads the trailing bytes and fills out->r. */
  method DecodeInto(spi: SpiBus, kind: ResponseKind, r1: bv8, out: Response)
    requires out.Valid()
    modifies spi, out.r
    ensures out.Valid()
    ensures var b := Take(old(spi.incoming), TrailLength(kind));
      && out.r[..] == Overwrite(old(out.r[..]), DecodedWords(kind, r1, b))
      && spi.incoming == Drop(old(spi.incoming), TrailLength(kind))
      && spi.trace == old(spi.trace) + Trailer(b)
  {
    match kind {
      case RespNone =>
        StoreFirst(out, 0);
      case R3 =>
        ReadWordInto(spi, out);
      case R7 =>
        ReadWordInto(spi, out);
      case R2 =>
        ReadRegisterInto(spi, out);
      case _ =>
        StoreFirst(out, r1 as bv32);
    }
  }

  /** out->r[0] = x, with no bus traffic. */
  method StoreFirst(out: Response, x: bv32)
    requires out.Valid()
    modifies out.r
    ensures out.Valid()
    ensures out.r[..] == Overwrite(old(out.r[..]), [x])
  {
    out.r[0] := x;
  }

  /** The R3/R7 case: read four bytes and store them big-endian in r[0]. */
  method ReadWordInto(spi: SpiBus, out: Response)
    requires out.Valid()
    modifies spi, out.r
    ensures out.Valid()
    ensures var b := Take(old(spi.incoming), 4);
      && out.r[..] == Overwrite(old(out.r[..]), [BigEndian(b[0], b[1], b[2], b[3])])
      && spi.incoming == Drop(old(spi.incoming), 4)
      && spi.trace == old(spi.trace) + Trailer(b)
  {
    var b := spi.ReadFf(4);
    out.r[0] := BigEndian(b[0], b[1], b[2], b[3]);
  }

  /** The R2 case: read sixteen bytes and store them as four big-endian words, last first. */
  method ReadRegisterInto(spi: SpiBus, out: Response)
    requires out.Valid()
    modifies spi, out.r
    ensures out.Valid()
    ensures var b := Take(old(spi.incoming), 16);
      && out.r[..] == DecodedWords(R2, 0, b)
      && spi.incoming == Drop(old(spi.incoming), 16)
      && spi.trace == old(spi.trace) + Trailer(b)
  {
    var b := spi.ReadFf(16);
    out.r[0] := BigEndian(b[12], b[13], b[14], b[15]);
    out.r[1] := BigEndian(b[8], b[9], b[10], b[11]);
    out.r[2] := BigEndian(b[4], b[5], b[6], b[7]);
    out.r[3] := BigEndian(b[0], b[1], b[2], b[3]);
  }

  lemma AppendAssoc(a: seq<BusEvent>, b: seq<BusEvent>, c: seq<BusEvent>)
    ensures (a + b) + c == a + (b + c)
  {
  }

  /** The body of spi_submit once both the request and the response are present. */
  method SubmitBus(spi: SpiBus, rq: Request, delays: bool, out: Response) returns (st: Status)
    requires out.Valid()
    modifies spi, out, out.r
    ensures out.Valid()
    ensures var s := SubmitOnWire(old(spi.incoming), rq, delays);
      && st == s.reply.status
      && out.Value() == Deliver(old(out.Value()), s.reply)
      && spi.incoming == s.rest
      && spi.trace == old(spi.trace) + s.events
  {
    ghost var v0 := out.Value();
    ghost var drain := Incoming(spi.incoming, 0);
    var r1;
    ghost var p;
    r1, p := SendCommand(spi, rq, delays);
    assert SubmitOnWire(old(spi.incoming), rq, delays) == Conclude(drain, rq, p);
    ghost var lead := [Xchg(0xFF, drain), Select(true), Wrote(Frame(rq))] + p.events;
    out.r1 := r1;
    if r1 == 0xFF {
      spi.SelectCs(false);
      AppendAssoc(old(spi.trace), lead, [Select(false)]);
      assert Overwrite(v0.r, []) == v0.r;
      return Timeout;
    }
    ghost var tail := Trailer(Take(p.rest, TrailLength(rq.resp))) + [Select(false)];
    FinishOk(spi, rq.resp, r1, out);
    AppendAssoc(old(spi.trace), lead, tail);
    return Ok;
  }

  /** The rest of spi_submit once R1 has arrived: decode, then release chip-select. */
  method FinishOk(spi: SpiBus, kind: ResponseKind, r1: bv8, out: Response)
    requires out.Valid() && out.r1 == r1
    modifies spi, out.r
    ensures out.Valid()
    ensures var b := Take(old(spi.incoming), TrailLength(kind));
      && out.Value() == Deliver(old(out.Value()), Reply(Ok, r1, DecodedWords(kind, r1, b)))
      && spi.incoming == Drop(old(spi.incoming), TrailLength(kind))
      && spi.trace == old(spi.trace) + (Trailer(b) + [Select(false)])
  {
    DecodeInto(spi, kind, r1, out);
    spi.SelectCs(false);
  }

  /**
   * The first half of spi_submit: one draining exchange, chip-select
   * asserted, the frame written, and the R1 poll with the request's budget.
   */
  method SendCommand(spi: SpiBus, rq: Request, delays: bool) returns (r1: bv8, ghost p: PollOut)
    modifies spi
    ensures p == Poll(Drop(old(spi.incoming), 1), PollBudget(rq), delays)
    ensures r1 == p.r1 && spi.incoming == p.rest
    ensures spi.trace == old(spi.trace) + ([Xchg(0xFF, Incoming(old(spi.incoming), 0)), Select(true), Wrote(Frame(rq))] + p.events)
  {
    var f := BuildFrame(rq);
    var drain := spi.Xchg1(0xFF);
    spi.SelectCs(true);
    spi.Write(f);
    ghost var lead0 := [Xchg(0xFF, drain), Select(true), Wrote(f)];
    assert spi.trace == old(spi.trace) + lead0;
    var budget := if rq.timeoutMs != 0 then rq.timeoutMs as nat else TimeoutSdDefault as nat;
    p := Poll(spi.incoming, budget, delays);
    r1 := PollBus(spi, budget, delays);
    assert spi.trace == old(spi.trace) + (lead0 + p.events);
  }

  /**
   * The parameter check of spi_submit as written, `!rq && !out`: it refuses
   * a call only when both the request and the response are missing.
   */
  predicate GuardAsWritten(rqMissing: bool, outMissing: bool) {
    rqMissing && outMissing
  }

  /**
   * The check as written lets a call with no request through, after which
   * `rq->cmd` is read from a null pointer; likewise a call with no response
   * reaches `out->r1 = r1`.
   */
  lemma GuardAsWrittenLetsMissingThrough()
    ensures !GuardAsWritten(true, false) && !GuardAsWritten(false, true)
  {
  }

  /** The evidently intended check, `!rq || !out`. */
  predicate GuardRejects(rqMissing: bool, outMissing: bool) {
    rqMissing || outMissing
  }

  /**
   * The corrected check lets a call through exactly when both pointers are
   * present, and refuses every call the check as written refuses.
   */
  lemma GuardRejectsSound(rqMissing: bool, outMissing: bool)
    ensures !GuardRejects(rqMissing, outMissing) <==> !rqMissing && !outMissing
    ensures GuardAsWritten(rqMissing, outMissing) ==> GuardRejects(rqMissing, outMissing)
  {
  }

  /**
   * spi_submit(host, rq, out, NULL). The parameter check is the corrected
   * one (GuardRejects): a missing request or a missing response is refused.
   */
  method Submit(host: Host, rq: Option<Request>, out: Response?) returns (st: Status)
    requires out != null ==> out.Valid()
    requires host.busCtx != null && host.busCtx.spi != null && host.busCtx.host != null
    modifies host.busCtx.spi, if out == null then {} else {out, out.r}
    ensures GuardRejects(rq.None?, out == null) ==>
              st == Param && unchanged(host.busCtx.spi) && (out != null ==> unchanged(out, out.r))
    ensures !GuardRejects(rq.None?, out == null) ==>
              var s := SubmitOnWire(old(host.busCtx.spi.incoming), rq.value, HasDelayHook(host.busCtx.host));
              && out != null && out.Valid()
              && st == s.reply.status
              && out.Value() == Deliver(old(out.Value()), s.reply)
              && host.busCtx.spi.incoming == s.rest
              && host.busCtx.spi.trace == old(host.busCtx.spi.trace) + s.events
  {
    if GuardRejects(rq.None?, out == null) {
      return Param;
    }
    var ctx := host.busCtx;
    st := SubmitBus(ctx.spi, rq.value, ctx.host.ops.Some? && ctx.host.ops.value.hasDelay, out);
  }

  // ========== Properties of a submit ==========

  /**
   * Chip-select discipline and framing: a submit starts with the draining
   * exchange, asserts chip-select, writes the frame, and ends by releasing
   * chip-select; chip-select is touched nowhere else.
   */
  lemma SubmitFraming(q: seq<bv8>, rq: Request, delays: bool)
    ensures var es := SubmitOnWire(q, rq, delays).events;
      && |es| >= 4
      && es[0] == Xchg(0xFF, Incoming(q, 0)) && es[1] == Select(true) && es[2] == Wrote(Frame(rq))
      && es[|es| - 1] == Select(false)
      && forall i :: 0 <= i < |es| && es[i].Select? ==> i == 1 || i == |es| - 1
  {
    var p := Poll(Drop(q, 1), PollBudget(rq), delays);
    PollOnlyPollEvents(Drop(q, 1), PollBudget(rq), delays);
    var head := [Xchg(0xFF, Incoming(q, 0)), Select(true), Wrote(Frame(rq))];
    var lead := head + p.events;
    var s := SubmitOnWire(q, rq, delays);
    var mid := if p.r1 == 0xFF then [] else Trailer(Take(p.rest, TrailLength(rq.resp)));
    var es := lead + mid + [Select(false)];
    assert s.events == es by {
      if p.r1 == 0xFF {
        assert lead + [] == lead;
      } else {
        AppendAssoc(lead, mid, [Select(false)]);
      }
    }
  }

  /**
   * A submit times out exactly when every one of the budget's bytes after
   * the drained byte has bit 7 set; it then reports R1 = 0xFF, stores no
   * word and reads no trailing bytes. Otherwise it succeeds. The status is
   * never anything but Ok or Timeout.
   */
  lemma SubmitTimeout(q: seq<bv8>, rq: Request, delays: bool)
    ensures var s := SubmitOnWire(q, rq, delays);
      && (s.reply.status == Ok || s.reply.status == Timeout)
      && (s.reply.status == Timeout <==> forall j :: 1 <= j <= PollBudget(rq) ==> Incoming(q, j) & 0x80 != 0)
      && (s.reply.status == Timeout ==>
            && s.reply == Silent
            && Exchanges(s.events) == 1 + PollBudget(rq)
            && forall i :: 0 <= i < |s.events| ==> !s.events[i].ReadFF?)
  {
    var t := PollBudget(rq);
    var q' := Drop(q, 1);
    var p := Poll(q', t, delays);
    PollTimeout(q', t, delays);
    if p.r1 == 0xFF {
      forall j | 1 <= j <= t ensures Incoming(q, j) & 0x80 != 0 {
        IncomingShift(q, j - 1);
      }
      TimeoutTrace(q, rq, delays);
    } else {
      var j :| 0 <= j < t && Incoming(q', j) & 0x80 == 0;
      IncomingShift(q, j);
    }
  }

  /** The bus trace of a submit whose poll timed out: 1 + budget exchanges, no block read. */
  lemma TimeoutTrace(q: seq<bv8>, rq: Request, delays: bool)
    requires Poll(Drop(q, 1), PollBudget(rq), delays).r1 == 0xFF
    ensures var s := SubmitOnWire(q, rq, delays);
      && Exchanges(s.events) == 1 + PollBudget(rq)
      && forall i :: 0 <= i < |s.events| ==> !s.events[i].ReadFF?
  {
    var t := PollBudget(rq);
    var q' := Drop(q, 1);
    var p := Poll(q', t, delays);
    PollTimeout(q', t, delays);
    PollOnlyPollEvents(q', t, delays);
    var head := [Xchg(0xFF, Incoming(q, 0)), Select(true), Wrote(Frame(rq))];
    var es := head + p.events + [Select(false)];
    CountsAppend(head + p.events, [Select(false)]);
    CountsAppend(head, p.events);
    HeadExchanges(Incoming(q, 0), Frame(rq));
    assert Exchanges([Select(false)]) == 0;
    forall i | 0 <= i < |es| ensures !es[i].ReadFF? {
      if 3 <= i < 3 + |p.events| {
        assert es[i] == p.events[i - 3];
        assert PollEvent(p.events[i - 3]);
      }
    }
  }

  /**
   * A submit that succeeds found R1, with bit 7 clear, as the n-th byte
   * after the drained byte (n within the budget) after n-1 busy bytes, and
   * stores the decoding of the trailing bytes that follow it.
   */
  lemma SubmitOk(q: seq<bv8>, rq: Request, delays: bool)
    ensures var s := SubmitOnWire(q, rq, delays);
      s.reply.status == Ok ==>
        && s.reply.r1 & 0x80 == 0
        && exists n :: 1 <= n <= PollBudget(rq)
             && s.reply.r1 == Incoming(q, n)
             && (forall j :: 1 <= j < n ==> Incoming(q, j) & 0x80 != 0)
             && s.reply.words == DecodedWords(rq.resp, s.reply.r1, Take(Drop(q, n + 1), TrailLength(rq.resp)))
             && s.rest == Drop(q, n + 1 + TrailLength(rq.resp))
  {
    var t := PollBudget(rq);
    var p := Poll(Drop(q, 1), t, delays);
    if p.r1 != 0xFF {
      var n := PollAfterDrain(q, t, delays);
      DropAdd(q, n + 1, TrailLength(rq.resp));
    }
  }

  /**
   * A poll that starts after the drained byte and finds R1 finds it as the
   * n-th byte of the script (with n counted from the drained byte), after
   * busy bytes only, and leaves the script after it.
   */
  lemma PollAfterDrain(q: seq<bv8>, t: nat, delays: bool) returns (n: nat)
    requires Poll(Drop(q, 1), t, delays).r1 != 0xFF
    ensures 1 <= n <= t
    ensures Poll(Drop(q, 1), t, delays).r1 == Incoming(q, n) && Incoming(q, n) & 0x80 == 0
    ensures forall j :: 1 <= j < n ==> Incoming(q, j) & 0x80 != 0
    ensures Poll(Drop(q, 1), t, delays).rest == Drop(q, n + 1)
  {
    var q' := Drop(q, 1);
    var p := Poll(q', t, delays);
    PollShape(q', t, delays);
    PollFound(q', t, delays);
    n := Exchanges(p.events);
    IncomingShift(q, n - 1);
    forall j | 1 <= j < n ensures Incoming(q, j) & 0x80 != 0 {
      IncomingShift(q, j - 1);
    }
    DropDrop(q, n);
  }

  /** The opening calls of a submit make exactly one exchange. */
  lemma HeadExchanges(drain: bv8, f: seq<bv8>)
    ensures Exchanges([Xchg(0xFF, drain), Select(true), Wrote(f)]) == 1
  {
    var w: seq<BusEvent> := [Wrote(f)];
    var sw: seq<BusEvent> := [Select(true), Wrote(f)];
    var head := [Xchg(0xFF, drain), Select(true), Wrote(f)];
    assert w[1..] == [];
    assert Exchanges(w) == 0;
    assert sw[1..] == w;
    assert Exchanges(sw) == 0;
    assert head[1..] == sw;
  }

  /** Dropping n then m bytes drops n + m bytes. */
  lemma DropAdd(q: seq<bv8>, n: nat, m: nat)
    ensures Drop(Drop(q, n), m) == Drop(q, n + m)
  {
  }

  /** The shapes of reply the SPI transport can give. */
  predicate SpiShaped(rp: Reply) {
    rp == Silent || (rp.status == Ok && rp.r1 & 0x80 == 0 && 1 <= |rp.words|)
  }

  /** Every reply of the SPI transport is a timeout with R1 0xFF or an Ok with a valid R1. */
  lemma SubmitShaped(q: seq<bv8>, rq: Request, delays: bool)
    ensures SpiShaped(SubmitOnWire(q, rq, delays).reply)
  {
    SubmitTimeout(q, rq, delays);
    SubmitOk(q, rq, delays);
  }

  /** A submit makes at most one exchange more than its poll budget. */
  lemma SubmitExchangeBound(q: seq<bv8>, rq: Request, delays: bool)
    ensures Exchanges(SubmitOnWire(q, rq, delays).events) <= 1 + PollBudget(rq)
  {
    var p := Poll(Drop(q, 1), PollBudget(rq), delays);
    PollShape(Drop(q, 1), PollBudget(rq), delays);
    var head := [Xchg(0xFF, Incoming(q, 0)), Select(true), Wrote(Frame(rq))];
    var mid := if p.r1 == 0xFF then [] else Trailer(Take(p.rest, TrailLength(rq.resp)));
    var es := head + p.events + (mid + [Select(false)]);
    assert SubmitOnWire(q, rq, delays).events == es by {
      if p.r1 == 0xFF {
        assert mid + [Select(false)] == [Select(false)];
      }
    }
    CountsAppend(head + p.events, mid + [Select(false)]);
    CountsAppend(head, p.events);
    CountsAppend(mid, [Select(false)]);
    HeadExchanges(Incoming(q, 0), Frame(rq));
    assert Exchanges([Select(false)]) == 0;
    assert Exchanges(mid) == 0 by {
      if mid != [] {
        assert mid[1..] == [];
      }
    }
  }

  /**
   * Round trip: a card that answers after `busy` busy bytes, within the
   * budget, with R1 and the trailing bytes of the response kind, is
   * reported as Ok with that R1 and the decoding of those bytes.
   */
  lemma SubmitDelivers(rq: Request, drain: bv8, busy: nat, r1: bv8, body: seq<bv8>, delays: bool)
    requires busy < PollBudget(rq) && r1 & 0x80 == 0 && |body| == TrailLength(rq.resp)
    ensures var q := [drain] + seq(busy, _ => 0xFF) + [r1] + body;
      SubmitOnWire(q, rq, delays).reply == Reply(Ok, r1, DecodedWords(rq.resp, r1, body))
  {
    var q := [drain] + seq(busy, _ => 0xFF) + [r1] + body;
    SubmitOk(q, rq, delays);
    SubmitTimeout(q, rq, delays);
    assert Incoming(q, busy + 1) == r1;
    forall j | 1 <= j <= busy ensures Incoming(q, j) == 0xFF {
    }
    var s := SubmitOnWire(q, rq, delays);
    assert s.reply.status == Ok;
    var n :| 1 <= n <= PollBudget(rq)
             && s.reply.r1 == Incoming(q, n)
             && (forall j :: 1 <= j < n ==> Incoming(q, j) & 0x80 != 0)
             && s.reply.words == DecodedWords(rq.resp, s.reply.r1, Take(Drop(q, n + 1), TrailLength(rq.resp)));
    assert n == busy + 1;
    assert Drop(q, n + 1) == body;
    TakeAll(body);
  }

  /** Taking a whole script gives it back. */
  lemma TakeAll(b: seq<bv8>)
    ensures Take(b, |b|) == b
  {
    TakeIncoming(b, |b|);
  }

  /** spi_set_clock(host, hz): forwards hz unchanged to the baud primitive. */
  method SetClock(host: Host, hz: bv32) returns (st: Status)
    requires host.busCtx != null && host.busCtx.spi != null
    modifies host.busCtx.spi`trace
    ensures st == Ok
    ensures host.busCtx.spi.trace == old(host.busCtx.spi.trace) + [Baud(hz)]
  {
    host.busCtx.spi.SetBaud(hz);
    return Ok;
  }

  /** spi_set_width(host, bits): has no effect in SPI mode. */
  method SetWidth(host: Host, bits: int) returns (st: Status)
    ensures st == Ok
  {
    return Ok;
  }

  // ========== Binding ==========

  /** SPI_VTBL: set_clock, set_bus_width and submit are all present. */
  const SpiVtbl: BusVtbl := BusVtbl(true, true)

  /**
   * sd_bind_spi_transport(host, ops). `spiCtx` is the function-local static
   * context: the same storage for every call.
   */
  method BindSpiTransport(host: Host, ops: SpiBus, spiCtx: SpiCtx)
    modifies spiCtx, host`busKind, host`bus, host`busCtx, host`supports4bit, host`supports1v8
    ensures spiCtx.host == host && spiCtx.spi == ops
    ensures host.busKind == BusSpi && host.bus == Some(SpiVtbl) && host.busCtx == spiCtx
    ensures !host.supports4bit && !host.supports1v8
  {
    spiCtx.host := host;
    spiCtx.spi := ops;
    host.busKind := BusSpi;
    host.bus := Some(SpiVtbl);
    host.busCtx := spiCtx;
    host.supports4bit := false;
    host.supports1v8 := false;
  }

  /**
   * Binding a second host through the same static context re-targets the
   * first host too: both hosts' contexts are the one storage, which now
   * names the second host and its primitives.
   */
  method RebindOverwrites(h1: Host, ops1: SpiBus, h2: Host, ops2: SpiBus, spiCtx: SpiCtx)
    modifies spiCtx, h1`busKind, h1`bus, h1`busCtx, h1`supports4bit, h1`supports1v8
    modifies h2`busKind, h2`bus, h2`busCtx, h2`supports4bit, h2`supports1v8
    ensures h1.busCtx == h2.busCtx == spiCtx
    ensures spiCtx.host == h2 && spiCtx.spi == ops2
  {
    BindSpiTransport(h1, ops1, spiCtx);
    BindSpiTransport(h2, ops2, spiCtx);
  }
}
