/**
 * The host context, the platform's SPI primitives, the SPI transport's
 * private context and the card record (include/sd_host.h, include/sd.h,
 * include/bus/sd_spi.h), with the fields the .c files actually use.
 *
 * Function-pointer tables become typed values that say which optional hooks
 * are present. The platform itself is abstract:
 *  - SpiBus stands for the SPI primitives of a platform port: it answers
 *    from a scripted queue of bytes driven by the card and appends every
 *    primitive call to a trace;
 *  - the bound transport's `submit`, seen from the bring-up engine, is an
 *    oracle on Host that answers each request from a scripted queue of
 *    replies and logs the request on the host trace.
 */
module SdHost {
  import opened SdTypes

  /** The host operations table: which of the optional hooks are present. */
  datatype HostOps = HostOps(hasSetPower: bool, hasDelay: bool)

  /**
   * The bus operations table (sd_bus_vtbl_t); `submit` is always present,
   * `set_clock` and `set_bus_width` may be missing.
   */
  datatype BusVtbl = BusVtbl(hasSetClock: bool, hasSetBusWidth: bool)

  /** What the host hooks and the bus transport were asked to do, in order. */
  datatype HostEvent =
    | Powered(on: bool)
    | Delayed(ms: bv32)
    | Clocked(hz: bv32)
    | Sent(rq: Request)

  /** One call of a platform SPI primitive (or of the host delay hook). */
  datatype BusEvent =
    | Xchg(tx: bv8, rx: bv8)
    | Select(on: bool)
    | Wrote(bytes: seq<bv8>)
    | ReadFF(bytes: seq<bv8>)
    | Delay(ms: bv32)
    | Baud(hz: bv32)

  // ========== Scripted queues ==========

  /** Byte i of the card's script; past its end the line reads idle-high. */
  function Incoming(q: seq<bv8>, i: nat): bv8 {
    if i < |q| then q[i] else 0xFF
  }

  /** The script after n bytes were clocked in. */
  function Drop(q: seq<bv8>, n: nat): seq<bv8> {
    if n <= |q| then q[n..] else []
  }

  /** Dropping n bytes shifts the script by n. */
  lemma IncomingDrop(q: seq<bv8>, n: nat)
    ensures forall i: nat :: Incoming(Drop(q, n), i) == Incoming(q, n + i)
  {
  }

  /** The first n bytes the card drives. */
  function Take(q: seq<bv8>, n: nat): (b: seq<bv8>)
    ensures |b| == n
  {
    if n == 0 then [] else [Incoming(q, 0)] + Take(Drop(q, 1), n - 1)
  }

  /** The bytes taken are the next n bytes of the script. */
  lemma {:induction false} TakeIncoming(q: seq<bv8>, n: nat)
    ensures forall i :: 0 <= i < n ==> Take(q, n)[i] == Incoming(q, i)
  {
    if n > 0 {
      TakeIncoming(Drop(q, 1), n - 1);
      IncomingDrop(q, 1);
    }
  }

  /** The reply to the next submit; an exhausted script never answers. */
  function Answer(q: seq<Reply>): Reply {
    if q == [] then Silent else q[0]
  }

  /** The reply script after one submit. */
  function Rest(q: seq<Reply>): seq<Reply> {
    if q == [] then [] else q[1..]
  }

  /** The reply to the k-th submit from now, counting from 0. */
  function NthReply(q: seq<Reply>, k: nat): (rp: Reply)
    ensures k == 0 ==> rp == Answer(q)
  {
    if k < |q| then q[k] else Silent
  }

  /** One submit later, every reply moves forward by one. */
  lemma NthReplyRest(q: seq<Reply>)
    ensures forall k: nat :: NthReply(Rest(q), k) == NthReply(q, k + 1)
  {
  }

  // ========== Platform SPI primitives (sd_spi_ops_t) ==========

  class SpiBus {
    /** The bytes the card will drive on MISO, in order. */
    var incoming: seq<bv8>
    /** Every primitive call, in order. */
    var trace: seq<BusEvent>

    constructor (script: seq<bv8>)
      ensures incoming == script && trace == []
    {
      incoming := script;
      trace := [];
    }

    /** xchg1: transmits one byte and returns the byte received. */
    method Xchg1(tx: bv8) returns (rx: bv8)
      modifies this
      ensures rx == Incoming(old(incoming), 0)
      ensures incoming == Drop(old(incoming), 1)
      ensures trace == old(trace) + [Xchg(tx, rx)]
    {
      rx := Incoming(incoming, 0);
      incoming := Drop(incoming, 1);
      trace := trace + [Xchg(tx, rx)];
    }

    /** write: transmits a buffer; what the card drives meanwhile is discarded. */
    method Write(src: seq<bv8>)
      modifies this`trace
      ensures trace == old(trace) + [Wrote(src)]
    {
      trace := trace + [Wrote(src)];
    }

    /** read_ff: receives n bytes while clocking out 0xFF. */
    method ReadFf(n: nat) returns (dst: seq<bv8>)
      modifies this
      ensures dst == Take(old(incoming), n)
      ensures incoming == Drop(old(incoming), n)
      ensures trace == old(trace) + [ReadFF(dst)]
    {
      dst := Take(incoming, n);
      incoming := Drop(incoming, n);
      trace := trace + [ReadFF(dst)];
    }

    /** select_cs */
    method SelectCs(on: bool)
      modifies this`trace
      ensures trace == old(trace) + [Select(on)]
    {
      trace := trace + [Select(on)];
    }

    /** set_baud */
    method SetBaud(hz: bv32)
      modifies this`trace
      ensures trace == old(trace) + [Baud(hz)]
    {
      trace := trace + [Baud(hz)];
    }

    /** The host's delay_ms hook, recorded on the same timeline as the bus. */
    method DelayMs(ms: bv32)
      modifies this`trace
      ensures trace == old(trace) + [Delay(ms)]
    {
      trace := trace + [Delay(ms)];
    }
  }

  // ========== SPI private context (spi_ctx_t) ==========

  class SpiCtx {
    var spi: SpiBus?
    var host: Host?

    /** Zero-initialised storage. */
    constructor ()
      ensures spi == null && host == null
    {
      spi := null;
      host := null;
    }
  }

  // ========== Host controller (sd_host_t) ==========

  class Host {
    var busKind: BusKind
    var bus: Option<BusVtbl>
    var busCtx: SpiCtx?
    var maxClockHz: bv32
    var supports4bit: bool
    var supports1v8: bool
    var ops: Option<HostOps>

    /** The replies the bound transport's submit will give, in order. */
    var replies: seq<Reply>
    /** Every hook call and every submitted request, in order. */
    var trace: seq<HostEvent>

    constructor (ops: Option<HostOps>, bus: Option<BusVtbl>, script: seq<Reply>)
      ensures this.ops == ops && this.bus == bus && busCtx == null
      ensures replies == script && trace == []
    {
      busKind := BusSpi;
      this.bus := bus;
      busCtx := null;
      maxClockHz := 0;
      supports4bit := false;
      supports1v8 := false;
      this.ops := ops;
      replies := script;
      trace := [];
    }

    /**
     * bus->submit(host, rq, out, NULL): answers with the next scripted reply,
     * stores its R1 byte and its words into `out`, and logs the request.
     */
    method Submit(rq: Request, out: Response) returns (st: Status)
      requires out.Valid()
      modifies this`replies, this`trace, out`r1, out.r
      ensures out.Valid()
      ensures st == Answer(old(replies)).status
      ensures out.Value() == Deliver(old(out.Value()), Answer(old(replies)))
      ensures replies == Rest(old(replies))
      ensures trace == old(trace) + [Sent(rq)]
    {
      var a := Answer(replies);
      st := a.status;
      out.r1 := a.r1;
      out.r[0] := Pick(a.words, 0, out.r[0]);
      out.r[1] := Pick(a.words, 1, out.r[1]);
      out.r[2] := Pick(a.words, 2, out.r[2]);
      out.r[3] := Pick(a.words, 3, out.r[3]);
      replies := Rest(replies);
      trace := trace + [Sent(rq)];
    }

    /** ops->set_power */
    method SetPower(on: bool)
      modifies this`trace
      ensures trace == old(trace) + [Powered(on)]
    {
      trace := trace + [Powered(on)];
    }

    /** ops->delay_ms */
    method DelayMs(ms: bv32)
      modifies this`trace
      ensures trace == old(trace) + [Delayed(ms)]
    {
      trace := trace + [Delayed(ms)];
    }

    /** bus->set_clock */
    method SetClock(hz: bv32)
      modifies this`trace
      ensures trace == old(trace) + [Clocked(hz)]
    {
      trace := trace + [Clocked(hz)];
    }
  }

  // ========== Card record (sd_card_t) ==========

  /** The value of every field of sd_card_t except the host back-reference. */
  datatype CardState = CardState(
    v2: bool,
    highCapacity: bool,
    capacityBytes: bv64,
    rca: bv32,
    blockLen: bv32,
    currSpeed: Speed,
    bus4bit: bool,
    locked: bool,
    ocr: bv32,
    cid: seq<bv8>,
    csd: seq<bv8>,
    scr: seq<bv8>)

  function Zeros(n: nat): (z: seq<bv8>)
    ensures |z| == n && forall i :: 0 <= i < n ==> z[i] == 0
  {
    seq(n, _ => 0)
  }

  /** A card record after memset(card, 0, sizeof *card). */
  const ZeroCard: CardState :=
    CardState(false, false, 0, 0, 0, SpeedDefault, false, false, 0, Zeros(16), Zeros(16), Zeros(8))

  class Card {
    var v2: bool
    var highCapacity: bool
    var capacityBytes: bv64
    var rca: bv32
    var blockLen: bv32
    var currSpeed: Speed
    var bus4bit: bool
    var locked: bool
    var ocr: bv32
    var cid: seq<bv8>
    var csd: seq<bv8>
    var scr: seq<bv8>
    var host: Host?

    constructor ()
      ensures State() == ZeroCard && host == null
    {
      v2, highCapacity, capacityBytes, rca, blockLen := false, false, 0, 0, 0;
      currSpeed, bus4bit, locked, ocr := SpeedDefault, false, false, 0;
      cid, csd, scr := Zeros(16), Zeros(16), Zeros(8);
      host := null;
    }

    function State(): CardState
      reads this
    {
      CardState(v2, highCapacity, capacityBytes, rca, blockLen, currSpeed, bus4bit, locked, ocr, cid, csd, scr)
    }

    /** memset(card, 0, sizeof(*card)) */
    method Zero()
      modifies this
      ensures State() == ZeroCard && host == null
    {
      v2, highCapacity, capacityBytes, rca, blockLen := false, false, 0, 0, 0;
      currSpeed, bus4bit, locked, ocr := SpeedDefault, false, false, 0;
      cid, csd, scr := Zeros(16), Zeros(16), Zeros(8);
      host := null;
    }
  }
}
