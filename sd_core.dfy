/**
 * The card bring-up engine of src/sd_core.c: the two R1 predicates, the
 * five command helpers and sd_init.
 *
 * The bound transport's submit is the oracle Host.Submit: each request is
 * answered by the next scripted Reply and logged as a Sent event. Every
 * helper is a method over Host (and Card, and the caller's Response) proved
 * equal to a pure function of the reply script; the promised properties of
 * the bring-up (command order, the submit bound, the classification of each
 * outcome, the card record on success) are proved about those functions.
 */
module SdCore {
  import opened SdTypes
  import opened SdDefines
  import opened SdHost
  import SdSpi

  // ========== R1 predicates ==========

  /** r1_is_error: the error bit (bit 7) of the R1 byte. */
  function R1IsError(rs: RespVal): (b: bool)
    ensures b <==> rs.r1 >= 0x80
  {
    rs.r1 & 0x80 != 0
  }

  /**
   * r1_in_idle: the idle bit, read from word r[0] and not from the R1 byte
   * (the transport stores R1 into r[0] for R1-kind responses).
   */
  function R1InIdle(rs: RespVal): (b: bool)
    ensures b <==> Bit(rs.r[0], 0)
  {
    rs.r[0] & R1IdleMask != 0
  }

  // ========== Requests ==========

  /** The voltage-range value sd_init passes to CMD8 (VHS 0001b: 2.7-3.6 V). */
  const Cmd8Voltage: bv32 := 1

  /** The CMD8 check pattern echoed back in the low byte of R7. */
  const CheckPattern: bv32 := 0xAA

  const GoIdleRequest: Request := Request(CmdGoIdleState, 0, R1, TimeoutGoIdleState)

  /** The CMD8 argument: the voltage nibble in bits 8-11 over the check pattern. */
  function IfCondArg(voltage: bv32): (arg: bv32)
    ensures arg & 0xFF == CheckPattern
    ensures (arg >> 8) & 0xF == voltage & 0xF
    ensures arg >> 12 == 0
  {
    ((voltage & 0xF) << 8) | CheckPattern
  }

  function IfCondRequest(voltage: bv32): Request {
    Request(CmdSendIfCond, IfCondArg(voltage), R7, TimeoutSendIfCond)
  }

  const AppCmdRequest: Request := Request(CmdAppCmd, 0, R1, TimeoutAppCmd)

  /**
   * The ACMD41 argument: the 3.2-3.4 V window bits 20 and 21, and the host
   * capacity support bit 30 exactly for a second-generation card.
   */
  function OpCondArg(v2: bool): (arg: bv32)
    ensures Bit(arg, 30) <==> v2
    ensures Bit(arg, 20) && Bit(arg, 21)
    ensures arg & 0xBFCF_FFFF == 0
  {
    0x0030_0000 | (if v2 then 0x4000_0000 else 0)
  }

  function OpCondRequest(v2: bool): Request {
    Request(AcmdSdSendOpCond, OpCondArg(v2), R1, TimeoutSdSendOpCond)
  }

  const ReadOcrRequest: Request := Request(CmdReadOcr, 0, R3, TimeoutReadOcr)

  function BlockLenRequest(len: bv32): Request {
    Request(CmdSetBlockLen, len, R1, TimeoutSetBlockLen)
  }

  // ========== One submit ==========

  /**
   * The outcome of a step of the engine: its status, the caller's response
   * afterwards, the host events it appended, and the replies left.
   */
  datatype Call = Call(status: Status, rs: RespVal, events: seq<HostEvent>, rest: seq<Reply>)

  /** R1 of a reply shows an error. */
  predicate Rejected(rp: Reply) {
    rp.r1 >= 0x80
  }

  // ========== Command helpers ==========

  /**
   * sd_go_idle_state: CMD0 into a local response. A failed submit's status
   * is returned as is; a submitted CMD0 is Ok exactly when R1 shows no error
   * and the first word shows idle, and Io otherwise.
   */
  function GoIdle(q: seq<Reply>): (c: Call)
    ensures c.events == [Sent(GoIdleRequest)] && c.rest == Rest(q)
    ensures Answer(q).status != Ok ==> c.status == Answer(q).status
    ensures Answer(q).status == Ok ==> c.status == Ok || c.status == Io
    ensures c.status == Ok <==>
      Answer(q).status == Ok && !Rejected(Answer(q)) && 0 < |Answer(q).words| && Bit(Answer(q).words[0], 0)
  {
    var rp := Answer(q);
    var rs := Deliver(Blank, rp);
    var st := if rp.status != Ok then rp.status else if R1IsError(rs) || !R1InIdle(rs) then Io else Ok;
    Call(st, rs, [Sent(GoIdleRequest)], Rest(q))
  }

  /**
   * sd_send_if_cond: CMD8 into the caller's response. A failed submit's
   * status is returned as is; a submitted CMD8 is Ok exactly when R1 shows
   * no error and the low byte of r[0] echoes the check pattern, Io otherwise.
   */
  function IfCond(q: seq<Reply>, voltage: bv32, rs: RespVal): (c: Call)
    ensures c.events == [Sent(IfCondRequest(voltage))] && c.rest == Rest(q)
    ensures c.rs == Deliver(rs, Answer(q))
    ensures Answer(q).status != Ok ==> c.status == Answer(q).status
    ensures Answer(q).status == Ok ==> c.status == Ok || c.status == Io
    ensures c.status == Ok <==>
      Answer(q).status == Ok && !Rejected(Answer(q)) && c.rs.r[0] & 0xFF == CheckPattern
  {
    var rp := Answer(q);
    var rs' := Deliver(rs, rp);
    var st :=
      if rp.status != Ok then rp.status
      else if R1IsError(rs') then Io
      else if rs'.r[0] & 0xFF != CheckPattern then Io
      else Ok;
    Call(st, rs', [Sent(IfCondRequest(voltage))], Rest(q))
  }

  /**
   * The outcome of sd_read_ocr: its status, the two card fields it writes
   * (the OCR and the capacity flag), the events, and the replies left.
   */
  datatype OcrCall = OcrCall(status: Status, ocr: bv32, highCapacity: bool, events: seq<HostEvent>, rest: seq<Reply>)

  /**
   * sd_read_ocr: CMD58 into a local response, from the card's OCR `ocr` and
   * capacity flag `hc`. On success the card takes the first word as its OCR
   * and the CCS bit as its capacity flag; on failure both are untouched.
   */
  function OcrRead(q: seq<Reply>, ocr: bv32, hc: bool): (c: OcrCall)
    ensures c.events == [Sent(ReadOcrRequest)] && c.rest == Rest(q)
    ensures c.status == Ok <==> Answer(q).status == Ok && !Rejected(Answer(q))
    ensures c.status != Ok ==> c.ocr == ocr && c.highCapacity == hc
    ensures Answer(q).status != Ok ==> c.status == Answer(q).status
    ensures Answer(q).status == Ok && Rejected(Answer(q)) ==> c.status == Io
    ensures c.status == Ok ==>
      && c.ocr == (if 0 < |Answer(q).words| then Answer(q).words[0] else 0)
      && c.highCapacity == Bit(c.ocr, 30)
  {
    var rp := Answer(q);
    var rs := Deliver(Blank, rp);
    if rp.status != Ok then OcrCall(rp.status, ocr, hc, [Sent(ReadOcrRequest)], Rest(q))
    else if R1IsError(rs) then OcrCall(Io, ocr, hc, [Sent(ReadOcrRequest)], Rest(q))
    else
      var ocr' := rs.r[0];
      OcrCall(Ok, ocr', OcrHighCapacity(ocr') != 0, [Sent(ReadOcrRequest)], Rest(q))
  }

  /**
   * sd_send_op_cond: CMD55, then ACMD41 exactly when CMD55 was submitted and
   * accepted; both answers land in the caller's response. Ok exactly when
   * ACMD41 was sent, submitted and accepted.
   */
  function OpCond(q: seq<Reply>, v2: bool, rs: RespVal): (c: Call)
    ensures 1 <= |c.events| <= 2 && c.events[0] == Sent(AppCmdRequest)
    ensures |c.events| == 2 <==> Answer(q).status == Ok && !Rejected(Answer(q))
    ensures |c.events| == 1 ==>
      && c.rs == Deliver(rs, Answer(q)) && c.rest == Rest(q)
      && c.status == (if Answer(q).status != Ok then Answer(q).status else Io)
    ensures |c.events| == 2 ==>
      && c.events[1] == Sent(OpCondRequest(v2))
      && c.rs == Deliver(Deliver(rs, Answer(q)), Answer(Rest(q))) && c.rest == Rest(Rest(q))
      && (Answer(Rest(q)).status != Ok ==> c.status == Answer(Rest(q)).status)
      && (c.status == Ok <==> Answer(Rest(q)).status == Ok && !Rejected(Answer(Rest(q))))
      && (Answer(Rest(q)).status == Ok && Rejected(Answer(Rest(q))) ==> c.status == Io)
  {
    var rp := Answer(q);
    var rs1 := Deliver(rs, rp);
    if rp.status != Ok || R1IsError(rs1) then
      Call(if rp.status != Ok then rp.status else Io, rs1, [Sent(AppCmdRequest)], Rest(q))
    else
      var rp2 := Answer(Rest(q));
      var rs2 := Deliver(rs1, rp2);
      var st := if rp2.status != Ok then rp2.status else if R1IsError(rs2) then Io else Ok;
      Call(st, rs2, [Sent(AppCmdRequest), Sent(OpCondRequest(v2))], Rest(Rest(q)))
  }

  /**
   * sd_set_block_len: CMD16 into a local response; a failed submit's status
   * as is, Io on an R1 error, Ok otherwise.
   */
  function BlockLen(q: seq<Reply>, len: bv32): (c: Call)
    ensures c.events == [Sent(BlockLenRequest(len))] && c.rest == Rest(q)
    ensures Answer(q).status != Ok ==> c.status == Answer(q).status
    ensures c.status == Ok <==> Answer(q).status == Ok && !Rejected(Answer(q))
    ensures Answer(q).status == Ok ==> c.status == Ok || c.status == Io
  {
    var rp := Answer(q);
    var rs := Deliver(Blank, rp);
    var st := if rp.status != Ok then rp.status else if R1IsError(rs) then Io else Ok;
    Call(st, rs, [Sent(BlockLenRequest(len))], Rest(q))
  }

  // ========== The two retry loops of sd_init ==========

  /**
   * The ACMD41 loop with n iterations left: send CMD55/ACMD41, ignore the
   * status, stop as soon as r[0] no longer shows idle.
   */
  function OpCondLoop(q: seq<Reply>, v2: bool, rs: RespVal, n: nat): Call
    decreases n
  {
    if n == 0 then Call(Ok, rs, [], q)
    else
      var c := OpCond(q, v2, rs);
      if !R1InIdle(c.rs) then Call(Ok, c.rs, c.events, c.rest)
      else
        var t := OpCondLoop(c.rest, v2, c.rs, n - 1);
        Call(t.status, t.rs, c.events + t.events, t.rest)
  }

  /** OpCondLoop continued after the events `acc`: the form the loop keeps invariant. */
  function OpCondFrom(q: seq<Reply>, v2: bool, rs: RespVal, n: nat, acc: seq<HostEvent>): Call
    decreases n
  {
    if n == 0 then Call(Ok, rs, acc, q)
    else
      var c := OpCond(q, v2, rs);
      if !R1InIdle(c.rs) then Call(Ok, c.rs, acc + c.events, c.rest)
      else OpCondFrom(c.rest, v2, c.rs, n - 1, acc + c.events)
  }

  lemma AppendAssoc(a: seq<HostEvent>, b: seq<HostEvent>, c: seq<HostEvent>)
    ensures (a + b) + c == a + (b + c)
  {
  }

  lemma {:induction false} OpCondFromLoop(q: seq<Reply>, v2: bool, rs: RespVal, n: nat, acc: seq<HostEvent>)
    ensures OpCondFrom(q, v2, rs, n, acc) == OpCondLoop(q, v2, rs, n).(events := acc + OpCondLoop(q, v2, rs, n).events)
    decreases n
  {
    if n == 0 {
      assert acc + [] == acc;
    } else {
      var c := OpCond(q, v2, rs);
      if R1InIdle(c.rs) {
        OpCondFromLoop(c.rest, v2, c.rs, n - 1, acc + c.events);
        AppendAssoc(acc, c.events, OpCondLoop(c.rest, v2, c.rs, n - 1).events);
      }
    }
  }

  /**
   * The OCR loop with n iterations left: read the OCR, return the first
   * error, stop as soon as the power-up bit is set.
   */
  function OcrLoop(q: seq<Reply>, ocr: bv32, hc: bool, n: nat): OcrCall
    decreases n
  {
    if n == 0 then OcrCall(Ok, ocr, hc, [], q)
    else
      var c := OcrRead(q, ocr, hc);
      if c.status != Ok || OcrPowerUpStatus(c.ocr) != 0 then c
      else
        var t := OcrLoop(c.rest, c.ocr, c.highCapacity, n - 1);
        OcrCall(t.status, t.ocr, t.highCapacity, c.events + t.events, t.rest)
  }

  /** OcrLoop continued after the events `acc`. */
  function OcrFrom(q: seq<Reply>, ocr: bv32, hc: bool, n: nat, acc: seq<HostEvent>): OcrCall
    decreases n
  {
    if n == 0 then OcrCall(Ok, ocr, hc, acc, q)
    else
      var c := OcrRead(q, ocr, hc);
      if c.status != Ok || OcrPowerUpStatus(c.ocr) != 0 then OcrCall(c.status, c.ocr, c.highCapacity, acc + c.events, c.rest)
      else OcrFrom(c.rest, c.ocr, c.highCapacity, n - 1, acc + c.events)
  }

  lemma {:induction false} OcrFromLoop(q: seq<Reply>, ocr: bv32, hc: bool, n: nat, acc: seq<HostEvent>)
    ensures OcrFrom(q, ocr, hc, n, acc) == OcrLoop(q, ocr, hc, n).(events := acc + OcrLoop(q, ocr, hc, n).events)
    decreases n
  {
    if n == 0 {
      assert acc + [] == acc;
    } else {
      var c := OcrRead(q, ocr, hc);
      if c.status == Ok && OcrPowerUpStatus(c.ocr) == 0 {
        OcrFromLoop(c.rest, c.ocr, c.highCapacity, n - 1, acc + c.events);
        AppendAssoc(acc, c.events, OcrLoop(c.rest, c.ocr, c.highCapacity, n - 1).events);
      }
    }
  }

  /**
   * The ACMD41 loop always ends Ok; it runs at most n iterations (one CMD55
   * each), at least one when n > 0, and sends at most two requests per
   * iteration; it ends still idle only after all n iterations.
   */
  lemma {:induction false} OpCondLoopCount(q: seq<Reply>, v2: bool, rs: RespVal, n: nat)
    ensures var r := OpCondLoop(q, v2, rs, n);
      && r.status == Ok
      && |r.events| <= 2 * n
      && (0 < n ==> 0 < |r.events| && r.events[0] == Sent(AppCmdRequest))
      && (0 < n && R1InIdle(r.rs) ==> AppCount(r.events) == n && n <= |r.events|)
      && AppCount(r.events) <= n && |r.events| <= 2 * AppCount(r.events)
      && (0 < n ==> 1 <= AppCount(r.events))
    decreases n
  {
    OpCondLoopIterations(q, v2, rs, n);
    OpCondLoopTwoPerIteration(q, v2, rs, n);
    OpCondLoopBound(q, v2, rs, n);
    OpCondLoopStillIdle(q, v2, rs, n);
    AppCountBound(OpCondLoop(q, v2, rs, n).events);
  }

  lemma {:induction false} OpCondLoopBound(q: seq<Reply>, v2: bool, rs: RespVal, n: nat)
    ensures var r := OpCondLoop(q, v2, rs, n);
      && r.status == Ok
      && |r.events| <= 2 * n
      && (0 < n ==> 0 < |r.events| && r.events[0] == Sent(AppCmdRequest))
    decreases n
  {
    if 0 < n {
      var c := OpCond(q, v2, rs);
      if R1InIdle(c.rs) {
        OpCondLoopBound(c.rest, v2, c.rs, n - 1);
      }
    }
  }

  /**
   * The ACMD41 loop runs at most n iterations, at least one when n > 0,
   * counting iterations by their CMD55.
   */
  lemma {:induction false} OpCondLoopIterations(q: seq<Reply>, v2: bool, rs: RespVal, n: nat)
    ensures var r := OpCondLoop(q, v2, rs, n);
      AppCount(r.events) <= n && (0 < n ==> 1 <= AppCount(r.events))
    decreases n
  {
    if 0 < n {
      var c := OpCond(q, v2, rs);
      OpCondAppCount(q, v2, rs);
      if R1InIdle(c.rs) {
        var t := OpCondLoop(c.rest, v2, c.rs, n - 1);
        assert OpCondLoop(q, v2, rs, n).events == c.events + t.events;
        OpCondLoopIterations(c.rest, v2, c.rs, n - 1);
        AppCountAppend(c.events, t.events);
      }
    }
  }

  /** The number of CMD55 requests among the events es: one per iteration of the ACMD41 loop. */
  function AppCount(es: seq<HostEvent>): nat {
    if |es| == 0 then 0
    else (if es[0] == Sent(AppCmdRequest) then 1 else 0) + AppCount(es[1..])
  }

  lemma {:induction false} AppCountAppend(a: seq<HostEvent>, b: seq<HostEvent>)
    ensures AppCount(a + b) == AppCount(a) + AppCount(b)
    decreases |a|
  {
    if |a| == 0 {
      assert a + b == b;
    } else {
      assert (a + b)[1..] == a[1..] + b;
      AppCountAppend(a[1..], b);
    }
  }

  /** One call of sd_send_op_cond sends exactly one CMD55. */
  lemma OpCondAppCount(q: seq<Reply>, v2: bool, rs: RespVal)
    ensures AppCount(OpCond(q, v2, rs).events) == 1
  {
    var c := OpCond(q, v2, rs);
    var acmd := [Sent(OpCondRequest(v2))];
    assert OpCondRequest(v2).cmd != AppCmdRequest.cmd;
    assert AppCount(acmd) == 0 by {
      assert acmd[1..] == [];
    }
    if |c.events| == 2 {
      assert c.events[1..] == acmd;
    } else {
      assert c.events[1..] == [];
    }
  }

  lemma {:induction false} AppCountBound(es: seq<HostEvent>)
    ensures AppCount(es) <= |es|
    decreases |es|
  {
    if 0 < |es| {
      AppCountBound(es[1..]);
    }
  }

  /** A loop that ends with r[0] still idle ran all n iterations: it sent exactly n CMD55 requests. */
  lemma {:induction false} OpCondLoopStillIdle(q: seq<Reply>, v2: bool, rs: RespVal, n: nat)
    ensures var r := OpCondLoop(q, v2, rs, n);
      0 < n && R1InIdle(r.rs) ==> AppCount(r.events) == n
    decreases n
  {
    if 0 < n {
      var c := OpCond(q, v2, rs);
      if R1InIdle(c.rs) {
        var t := OpCondLoop(c.rest, v2, c.rs, n - 1);
        assert OpCondLoop(q, v2, rs, n).events == c.events + t.events;
        OpCondAppCount(q, v2, rs);
        OpCondLoopStillIdle(c.rest, v2, c.rs, n - 1);
        AppCountAppend(c.events, t.events);
      }
    }
  }

  /** Every event of es is CMD55 or the ACMD41 request for v2. */
  predicate OpCondOnly(es: seq<HostEvent>, v2: bool) {
    forall k :: 0 <= k < |es| ==> es[k] == Sent(AppCmdRequest) || es[k] == Sent(OpCondRequest(v2))
  }

  /** Every request of the ACMD41 loop is CMD55 or ACMD41. */
  lemma {:induction false} OpCondLoopSends(q: seq<Reply>, v2: bool, rs: RespVal, n: nat)
    ensures OpCondOnly(OpCondLoop(q, v2, rs, n).events, v2)
    decreases n
  {
    if 0 < n {
      var c := OpCond(q, v2, rs);
      assert OpCondOnly(c.events, v2);
      if R1InIdle(c.rs) {
        var t := OpCondLoop(c.rest, v2, c.rs, n - 1);
        OpCondLoopSends(c.rest, v2, c.rs, n - 1);
        OpCondOnlyAppend(c.events, t.events, v2);
      }
    }
  }

  lemma OpCondOnlyAppend(a: seq<HostEvent>, b: seq<HostEvent>, v2: bool)
    requires OpCondOnly(a, v2) && OpCondOnly(b, v2)
    ensures OpCondOnly(a + b, v2)
  {
  }

  /** Every ACMD41 among es directly follows a CMD55: ACMD41 is never sent on its own. */
  predicate AcmdAfterApp(es: seq<HostEvent>, v2: bool) {
    forall k :: 0 <= k < |es| && es[k] == Sent(OpCondRequest(v2)) ==> 0 < k && es[k - 1] == Sent(AppCmdRequest)
  }

  /**
   * es is a run of rounds of sd_send_op_cond: each round a CMD55, followed
   * by its ACMD41 or by nothing.
   */
  predicate Rounds(es: seq<HostEvent>, v2: bool)
    decreases |es|
  {
    if |es| == 0 then true
    else if es[0] != Sent(AppCmdRequest) then false
    else if 2 <= |es| && es[1] == Sent(OpCondRequest(v2)) then Rounds(es[2..], v2)
    else Rounds(es[1..], v2)
  }

  lemma {:induction false} RoundsAppend(a: seq<HostEvent>, b: seq<HostEvent>, v2: bool)
    ensures Rounds(a, v2) && Rounds(b, v2) ==> Rounds(a + b, v2)
    decreases |a|
  {
    if !Rounds(a, v2) || !Rounds(b, v2) {
    } else if |a| == 0 {
      assert a + b == b;
    } else if 2 <= |a| && a[1] == Sent(OpCondRequest(v2)) {
      assert (a + b)[2..] == a[2..] + b;
      RoundsAppend(a[2..], b, v2);
    } else {
      assert (a + b)[1..] == a[1..] + b;
      RoundsAppend(a[1..], b, v2);
      if |a| == 1 && 0 < |b| {
        assert b[0] == Sent(AppCmdRequest);
        assert OpCondRequest(v2).cmd != AppCmdRequest.cmd;
      }
    }
  }

  /** A run of rounds sends every ACMD41 right after a CMD55. */
  lemma {:induction false} RoundsPaired(es: seq<HostEvent>, v2: bool)
    requires Rounds(es, v2)
    ensures AcmdAfterApp(es, v2)
    decreases |es|
  {
    if 0 < |es| {
      assert OpCondRequest(v2).cmd != AppCmdRequest.cmd;
      var d := if 2 <= |es| && es[1] == Sent(OpCondRequest(v2)) then 2 else 1;
      var tl := es[d..];
      RoundsPaired(tl, v2);
      forall k | 0 <= k < |es| && es[k] == Sent(OpCondRequest(v2))
        ensures 0 < k && es[k - 1] == Sent(AppCmdRequest)
      {
        if d <= k {
          assert tl[k - d] == es[k];
          if k == d {
            assert false;
          }
          assert tl[k - d - 1] == es[k - 1];
        }
      }
    }
  }

  /** A run of rounds holds at most two requests per CMD55. */
  lemma {:induction false} RoundsTwoPer(es: seq<HostEvent>, v2: bool)
    requires Rounds(es, v2)
    ensures |es| <= 2 * AppCount(es)
    decreases |es|
  {
    if 0 < |es| {
      assert OpCondRequest(v2).cmd != AppCmdRequest.cmd;
      if 2 <= |es| && es[1] == Sent(OpCondRequest(v2)) {
        RoundsTwoPer(es[2..], v2);
        assert es[1..][1..] == es[2..];
      } else {
        RoundsTwoPer(es[1..], v2);
      }
    }
  }

  /** Each iteration of the ACMD41 loop sends at most two requests. */
  lemma OpCondLoopTwoPerIteration(q: seq<Reply>, v2: bool, rs: RespVal, n: nat)
    ensures |OpCondLoop(q, v2, rs, n).events| <= 2 * AppCount(OpCondLoop(q, v2, rs, n).events)
  {
    OpCondLoopRounds(q, v2, rs, n);
    RoundsTwoPer(OpCondLoop(q, v2, rs, n).events, v2);
  }

  /** One call of sd_send_op_cond is one round. */
  lemma OpCondRounds(q: seq<Reply>, v2: bool, rs: RespVal)
    ensures Rounds(OpCond(q, v2, rs).events, v2)
  {
    var es := OpCond(q, v2, rs).events;
    if |es| == 2 {
      assert es[2..] == [];
    } else {
      assert OpCondRequest(v2).cmd != AppCmdRequest.cmd;
      assert es[1..] == [];
    }
  }

  /** The ACMD41 loop sends a run of rounds. */
  lemma {:induction false} OpCondLoopRounds(q: seq<Reply>, v2: bool, rs: RespVal, n: nat)
    ensures Rounds(OpCondLoop(q, v2, rs, n).events, v2)
    decreases n
  {
    if 0 < n {
      var c := OpCond(q, v2, rs);
      OpCondRounds(q, v2, rs);
      if R1InIdle(c.rs) {
        var t := OpCondLoop(c.rest, v2, c.rs, n - 1);
        assert OpCondLoop(q, v2, rs, n).events == c.events + t.events;
        OpCondLoopRounds(c.rest, v2, c.rs, n - 1);
        RoundsAppend(c.events, t.events, v2);
      } else {
        assert OpCondLoop(q, v2, rs, n).events == c.events;
      }
    }
  }

  /** In the ACMD41 loop every ACMD41 comes right after the CMD55 it belongs to. */
  lemma OpCondLoopPaired(q: seq<Reply>, v2: bool, rs: RespVal, n: nat)
    ensures AcmdAfterApp(OpCondLoop(q, v2, rs, n).events, v2)
  {
    OpCondLoopRounds(q, v2, rs, n);
    RoundsPaired(OpCondLoop(q, v2, rs, n).events, v2);
  }

  /**
   * The OCR loop sends at most n requests and at least one, and ends Ok
   * without power-up only after all n iterations.
   */
  lemma {:induction false} OcrLoopCount(q: seq<Reply>, ocr: bv32, hc: bool, n: nat)
    ensures var r := OcrLoop(q, ocr, hc, n);
      && |r.events| <= n
      && (0 < n ==> 0 < |r.events|)
      && (r.status == Ok && OcrPowerUpStatus(r.ocr) == 0 ==> |r.events| == n)
    decreases n
  {
    if 0 < n {
      var c := OcrRead(q, ocr, hc);
      if c.status == Ok && OcrPowerUpStatus(c.ocr) == 0 {
        OcrLoopCount(c.rest, c.ocr, c.highCapacity, n - 1);
      }
    }
  }

  /** The OCR an accepted CMD58 reply stores: its first word. */
  function ReplyOcr(rp: Reply): bv32 {
    if 0 < |rp.words| then rp.words[0] else 0
  }

  /**
   * The OCR loop stops at the first read that fails or shows power-up:
   * every read before the last was accepted without the power-up bit.
   */
  lemma {:induction false} OcrLoopEarlierReads(q: seq<Reply>, ocr: bv32, hc: bool, n: nat)
    ensures var r := OcrLoop(q, ocr, hc, n);
      forall k :: 0 <= k < |r.events| - 1 ==>
        && NthReply(q, k).status == Ok && !Rejected(NthReply(q, k))
        && OcrPowerUpStatus(ReplyOcr(NthReply(q, k))) == 0
    decreases n
  {
    if 0 < n {
      var c := OcrRead(q, ocr, hc);
      if c.status == Ok && OcrPowerUpStatus(c.ocr) == 0 {
        var t := OcrLoop(c.rest, c.ocr, c.highCapacity, n - 1);
        OcrLoopEarlierReads(c.rest, c.ocr, c.highCapacity, n - 1);
        assert |OcrLoop(q, ocr, hc, n).events| == 1 + |t.events|;
        NthReplyRest(q);
        forall k | 0 <= k < |t.events|
          ensures && NthReply(q, k).status == Ok && !Rejected(NthReply(q, k))
                  && OcrPowerUpStatus(ReplyOcr(NthReply(q, k))) == 0
        {
          if k == 0 {
            assert c.ocr == ReplyOcr(NthReply(q, 0));
          } else {
            assert NthReply(q, k) == NthReply(c.rest, k - 1);
          }
        }
      }
    }
  }

  /** A failed OCR loop whose last submit failed returns that submit's status. */
  lemma {:induction false} OcrLoopLastFailed(q: seq<Reply>, ocr: bv32, hc: bool, n: nat)
    ensures var r := OcrLoop(q, ocr, hc, n);
      r.status != Ok ==>
        && 0 < |r.events|
        && (NthReply(q, |r.events| - 1).status != Ok ==> r.status == NthReply(q, |r.events| - 1).status)
    decreases n
  {
    if 0 < n {
      var c := OcrRead(q, ocr, hc);
      if c.status == Ok && OcrPowerUpStatus(c.ocr) == 0 {
        var t := OcrLoop(c.rest, c.ocr, c.highCapacity, n - 1);
        OcrLoopLastFailed(c.rest, c.ocr, c.highCapacity, n - 1);
        NthReplyRest(q);
        assert |OcrLoop(q, ocr, hc, n).events| - 1 == |t.events|;
      }
    }
  }

  /** A failed OCR loop whose last submit was answered saw an R1 error and returns Io. */
  lemma {:induction false} OcrLoopLastRejected(q: seq<Reply>, ocr: bv32, hc: bool, n: nat)
    ensures var r := OcrLoop(q, ocr, hc, n);
      r.status != Ok ==>
        && 0 < |r.events|
        && (NthReply(q, |r.events| - 1).status == Ok ==> Rejected(NthReply(q, |r.events| - 1)) && r.status == Io)
    decreases n
  {
    if 0 < n {
      var c := OcrRead(q, ocr, hc);
      if c.status == Ok && OcrPowerUpStatus(c.ocr) == 0 {
        var t := OcrLoop(c.rest, c.ocr, c.highCapacity, n - 1);
        OcrLoopLastRejected(c.rest, c.ocr, c.highCapacity, n - 1);
        NthReplyRest(q);
        assert |OcrLoop(q, ocr, hc, n).events| - 1 == |t.events|;
      }
    }
  }

  /** An OCR loop that runs and ends on power-up keeps its last read's OCR. */
  lemma {:induction false} OcrLoopLastPowered(q: seq<Reply>, ocr: bv32, hc: bool, n: nat)
    ensures var r := OcrLoop(q, ocr, hc, n);
      0 < n && r.status == Ok && OcrPowerUpStatus(r.ocr) != 0 ==>
        && 0 < |r.events|
        && var rp := NthReply(q, |r.events| - 1);
           rp.status == Ok && !Rejected(rp) && r.ocr == ReplyOcr(rp)
    decreases n
  {
    if 0 < n {
      var c := OcrRead(q, ocr, hc);
      if c.status == Ok && OcrPowerUpStatus(c.ocr) == 0 {
        var t := OcrLoop(c.rest, c.ocr, c.highCapacity, n - 1);
        OcrLoopLastPowered(c.rest, c.ocr, c.highCapacity, n - 1);
        assert |OcrLoop(q, ocr, hc, n).events| == 1 + |t.events|;
        NthReplyRest(q);
      }
    }
  }

  /** Every request of the OCR loop is CMD58. */
  lemma {:induction false} OcrLoopSends(q: seq<Reply>, ocr: bv32, hc: bool, n: nat)
    ensures forall k :: 0 <= k < |OcrLoop(q, ocr, hc, n).events| ==> OcrLoop(q, ocr, hc, n).events[k] == Sent(ReadOcrRequest)
    decreases n
  {
    if 0 < n {
      var c := OcrRead(q, ocr, hc);
      if c.status == Ok && OcrPowerUpStatus(c.ocr) == 0 {
        var t := OcrLoop(c.rest, c.ocr, c.highCapacity, n - 1);
        OcrLoopSends(c.rest, c.ocr, c.highCapacity, n - 1);
        assert OcrLoop(q, ocr, hc, n).events == c.events + t.events;
      }
    }
  }

  /** The card record's capacity flag agrees with the CCS bit of its OCR. */
  predicate CapacityAgrees(ocr: bv32, hc: bool) {
    hc == Bit(ocr, 30)
  }

  /** The OCR loop keeps the capacity flag in agreement with the OCR. */
  lemma {:induction false} OcrLoopAgrees(q: seq<Reply>, ocr: bv32, hc: bool, n: nat)
    requires CapacityAgrees(ocr, hc)
    ensures CapacityAgrees(OcrLoop(q, ocr, hc, n).ocr, OcrLoop(q, ocr, hc, n).highCapacity)
    decreases n
  {
    if 0 < n {
      var c := OcrRead(q, ocr, hc);
      if c.status == Ok && OcrPowerUpStatus(c.ocr) == 0 {
        OcrLoopAgrees(c.rest, c.ocr, c.highCapacity, n - 1);
      }
    }
  }

  // ========== sd_init ==========

  /** The outcome of sd_init past its parameter checks. */
  datatype InitOut = InitOut(status: Status, card: CardState, events: seq<HostEvent>, rest: seq<Reply>)

  /** A zeroed card record after sd_init wrote its generation flag, OCR and capacity flag. */
  function Configured(v2: bool, ocr: bv32, hc: bool): (c: CardState)
    ensures c.v2 == v2 && c.ocr == ocr && c.highCapacity == hc
    ensures c == ZeroCard.(v2 := v2, ocr := ocr, highCapacity := hc)
  {
    CardState(v2, hc, 0, 0, 0, SpeedDefault, false, false, ocr, Zeros(16), Zeros(16), Zeros(8))
  }

  /** The hook calls before the first command: power on (if present), 1 ms, 400 kHz (if present). */
  function Prelude(powered: bool, clocked: bool): seq<HostEvent> {
    (if powered then [Powered(true)] else []) + [Delayed(1)] + (if clocked then [Clocked(400000)] else [])
  }

  /**
   * sd_init once CMD8 succeeded, from the card's generation flag `v2`, OCR
   * `ocr` and capacity flag `hc` and the response `rs` CMD8 left: the ACMD41
   * loop (still idle: Timeout), then LeftIdle. The OCR and the capacity flag
   * are the only card fields this part writes.
   */
  function Ready(q: seq<Reply>, v2: bool, ocr: bv32, hc: bool, rs: RespVal): OcrCall {
    var l := OpCondLoop(q, v2, rs, TimeoutCntSdSendOpCond);
    if R1InIdle(l.rs) then OcrCall(Timeout, ocr, hc, l.events, l.rest)
    else
      var p := LeftIdle(l.rest, ocr, hc);
      OcrCall(p.status, p.ocr, p.highCapacity, l.events + p.events, p.rest)
  }

  /**
   * sd_init once the card left idle: the OCR loop (its error returned; no
   * power-up: Timeout), then CMD16, whose status is returned.
   */
  function LeftIdle(q: seq<Reply>, ocr: bv32, hc: bool): OcrCall {
    var o := OcrLoop(q, ocr, hc, TimeoutCntReadOcr);
    if o.status != Ok then o
    else if OcrPowerUpStatus(o.ocr) == 0 then OcrCall(Timeout, o.ocr, o.highCapacity, o.events, o.rest)
    else
      var b := BlockLen(o.rest, SdDefaultBlockLen);
      OcrCall(b.status, o.ocr, o.highCapacity, o.events + b.events, b.rest)
  }

  /**
   * The command sequence of sd_init, from a zeroed card and an uninitialised
   * response: CMD0 (its failure returned), CMD8 (Io returned; any other
   * failure marks a first-generation card, which is Unsupported), then Ready.
   */
  function Commands(q: seq<Reply>): InitOut {
    var g := GoIdle(q);
    if g.status != Ok then InitOut(g.status, ZeroCard, g.events, g.rest)
    else
      var c8 := IfCond(g.rest, Cmd8Voltage, Blank);
      var e := g.events + c8.events;
      if c8.status == Io then InitOut(Io, ZeroCard, e, c8.rest)
      else
        if c8.status != Ok then InitOut(Unsupported, ZeroCard, e, c8.rest)
        else
          var r := Ready(c8.rest, true, 0, false, c8.rs);
          InitOut(r.status, Configured(true, r.ocr, r.highCapacity), e + r.events, r.rest)
  }

  /** The command sequence writes no card field but the generation flag, the OCR and the capacity flag. */
  lemma CommandsCard(q: seq<Reply>)
    ensures var c := Commands(q).card; c == Configured(c.v2, c.ocr, c.highCapacity)
  {
  }

  /** sd_init past its parameter checks: the prelude, then the command sequence. */
  function BringUp(q: seq<Reply>, powered: bool, clocked: bool): InitOut {
    var r := Commands(q);
    r.(events := Prelude(powered, clocked) + r.events)
  }

  // ========== The driver's methods ==========

  /** sd_go_idle_state(host) */
  method GoIdleState(host: Host) returns (st: Status)
    modifies host`replies, host`trace
    ensures var c := GoIdle(old(host.replies));
      && st == c.status && host.replies == c.rest && host.trace == old(host.trace) + c.events
  {
    var rs := new Response();
    st := host.Submit(GoIdleRequest, rs);
    if st != Ok {
      return;
    }
    if R1IsError(rs.Value()) || !R1InIdle(rs.Value()) {
      return Io;
    }
    return Ok;
  }

  /** sd_send_if_cond(host, voltage, rs) */
  method SendIfCond(host: Host, voltage: bv32, rs: Response) returns (st: Status)
    requires rs.Valid()
    modifies host`replies, host`trace, rs`r1, rs.r
    ensures rs.Valid()
    ensures var c := IfCond(old(host.replies), voltage, old(rs.Value()));
      && st == c.status && rs.Value() == c.rs
      && host.replies == c.rest && host.trace == old(host.trace) + c.events
  {
    var rq := Request(CmdSendIfCond, ((voltage & 0xF) << 8) | CheckPattern, R7, TimeoutSendIfCond);
    st := host.Submit(rq, rs);
    if st != Ok {
      return;
    }
    if R1IsError(rs.Value()) {
      return Io;
    }
    if rs.r[0] & 0xFF != CheckPattern {
      return Io;
    }
    return Ok;
  }

  /** sd_read_ocr(host, card) */
  method ReadOcr(host: Host, card: Card) returns (st: Status)
    modifies host`replies, host`trace, card`ocr, card`highCapacity
    ensures var c := OcrRead(old(host.replies), old(card.ocr), old(card.highCapacity));
      && st == c.status && card.ocr == c.ocr && card.highCapacity == c.highCapacity
      && host.replies == c.rest && host.trace == old(host.trace) + c.events
  {
    var rs := new Response();
    st := host.Submit(ReadOcrRequest, rs);
    if st != Ok {
      return;
    }
    if R1IsError(rs.Value()) {
      return Io;
    }
    card.ocr := rs.r[0];
    card.highCapacity := OcrHighCapacity(card.ocr) != 0;
    return Ok;
  }

  /** sd_send_op_cond(host, card, rs) */
  method SendOpCond(host: Host, card: Card, rs: Response) returns (st: Status)
    requires rs.Valid()
    modifies host`replies, host`trace, rs`r1, rs.r
    ensures rs.Valid()
    ensures var c := OpCond(old(host.replies), card.v2, old(rs.Value()));
      && st == c.status && rs.Value() == c.rs
      && host.replies == c.rest && host.trace == old(host.trace) + c.events
  {
    st := host.Submit(AppCmdRequest, rs);
    if st != Ok {
      return;
    }
    if R1IsError(rs.Value()) {
      return Io;
    }
    var arg: bv32 := 0x0030_0000 | (if card.v2 then 0x4000_0000 else 0);
    st := host.Submit(Request(AcmdSdSendOpCond, arg, R1, TimeoutSdSendOpCond), rs);
    if st != Ok {
      return;
    }
    if R1IsError(rs.Value()) {
      return Io;
    }
    return Ok;
  }

  /** sd_set_block_len(host, card, block_len); the card is not touched. */
  method SetBlockLen(host: Host, card: Card, len: bv32) returns (st: Status)
    modifies host`replies, host`trace
    ensures var c := BlockLen(old(host.replies), len);
      && st == c.status && host.replies == c.rest && host.trace == old(host.trace) + c.events
  {
    var rs := new Response();
    st := host.Submit(BlockLenRequest(len), rs);
    if st != Ok {
      return;
    }
    if R1IsError(rs.Value()) {
      return Io;
    }
    return Ok;
  }

  /**
   * One iteration of the ACMD41 loop of sd_init, with n iterations left:
   * CMD55/ACMD41 with the status ignored, then whether r[0] has left idle.
   */
  method OpCondAttempt(host: Host, card: Card, rs: Response, ghost n: nat, ghost goal: Call) returns (stop: bool)
    requires 0 < n && rs.Valid()
    requires OpCondFrom(host.replies, card.v2, rs.Value(), n, host.trace) == goal
    modifies host`replies, host`trace, rs`r1, rs.r
    ensures rs.Valid()
    ensures stop ==> goal == Call(Ok, rs.Value(), host.trace, host.replies)
    ensures !stop ==> OpCondFrom(host.replies, card.v2, rs.Value(), n - 1, host.trace) == goal
  {
    var ignored := SendOpCond(host, card, rs);
    stop := !R1InIdle(rs.Value());
  }

  /** The ACMD41 loop of sd_init (src/sd_core.c:293-301). */
  method OpCondPhase(host: Host, card: Card, rs: Response)
    requires rs.Valid()
    modifies host`replies, host`trace, rs`r1, rs.r
    ensures rs.Valid()
    ensures var l := OpCondLoop(old(host.replies), card.v2, old(rs.Value()), TimeoutCntSdSendOpCond);
      && rs.Value() == l.rs && host.replies == l.rest && host.trace == old(host.trace) + l.events
  {
    OpCondFromLoop(host.replies, card.v2, rs.Value(), TimeoutCntSdSendOpCond, host.trace);
    OpCondIterate(host, card, rs);
  }

  /** The loop itself, against the accumulating form OpCondFrom. */
  method OpCondIterate(host: Host, card: Card, rs: Response)
    requires rs.Valid()
    modifies host`replies, host`trace, rs`r1, rs.r
    ensures rs.Valid()
    ensures OpCondFrom(old(host.replies), card.v2, old(rs.Value()), TimeoutCntSdSendOpCond, old(host.trace))
         == Call(Ok, rs.Value(), host.trace, host.replies)
  {
    ghost var goal := OpCondFrom(host.replies, card.v2, rs.Value(), TimeoutCntSdSendOpCond, host.trace);
    var i: nat := 0;
    var stop := false;
    while i < TimeoutCntSdSendOpCond && !stop
      invariant i <= TimeoutCntSdSendOpCond && rs.Valid()
      invariant stop ==> goal == Call(Ok, rs.Value(), host.trace, host.replies)
      invariant !stop ==> OpCondFrom(host.replies, card.v2, rs.Value(), TimeoutCntSdSendOpCond - i, host.trace) == goal
      decreases TimeoutCntSdSendOpCond - i
    {
      stop := OpCondAttempt(host, card, rs, TimeoutCntSdSendOpCond - i, goal);
      i := i + 1;
    }
    if !stop {
      assert goal == Call(Ok, rs.Value(), host.trace, host.replies);
    }
  }

  /**
   * One iteration of the OCR loop of sd_init, with n iterations left: read
   * the OCR, then say whether the loop stops here (an error or the power-up
   * bit) and with what status.
   */
  method OcrAttempt(host: Host, card: Card, ghost n: nat, ghost goal: OcrCall) returns (st: Status, stop: bool)
    requires 0 < n
    requires OcrFrom(host.replies, card.ocr, card.highCapacity, n, host.trace) == goal
    modifies host`replies, host`trace, card`ocr, card`highCapacity
    ensures stop ==> goal == OcrCall(st, card.ocr, card.highCapacity, host.trace, host.replies)
    ensures !stop ==> OcrFrom(host.replies, card.ocr, card.highCapacity, n - 1, host.trace) == goal
  {
    st := ReadOcr(host, card);
    stop := st != Ok || OcrPowerUpStatus(card.ocr) != 0;
  }

  /** The OCR loop of sd_init (src/sd_core.c:308-319). */
  method OcrPhase(host: Host, card: Card) returns (st: Status)
    modifies host`replies, host`trace, card`ocr, card`highCapacity
    ensures var o := OcrLoop(old(host.replies), old(card.ocr), old(card.highCapacity), TimeoutCntReadOcr);
      && st == o.status && card.ocr == o.ocr && card.highCapacity == o.highCapacity
      && host.replies == o.rest && host.trace == old(host.trace) + o.events
  {
    OcrFromLoop(host.replies, card.ocr, card.highCapacity, TimeoutCntReadOcr, host.trace);
    ghost var goal := OcrFrom(host.replies, card.ocr, card.highCapacity, TimeoutCntReadOcr, host.trace);
    var i: nat := 0;
    st := Ok;
    var stop := false;
    while i < TimeoutCntReadOcr && !stop
      invariant i <= TimeoutCntReadOcr
      invariant stop ==> goal == OcrCall(st, card.ocr, card.highCapacity, host.trace, host.replies)
      invariant !stop ==> OcrFrom(host.replies, card.ocr, card.highCapacity, TimeoutCntReadOcr - i, host.trace) == goal
      decreases TimeoutCntReadOcr - i
    {
      st, stop := OcrAttempt(host, card, TimeoutCntReadOcr - i, goal);
      i := i + 1;
    }
    if !stop {
      st := Ok;
      assert goal == OcrCall(st, card.ocr, card.highCapacity, host.trace, host.replies);
    }
    assert goal == OcrCall(st, card.ocr, card.highCapacity, host.trace, host.replies);
  }

  /**
   * The command sequence of sd_init, from CMD0 to CMD16, on a zeroed card and
   * the caller's response left as sd_init's uninitialised local.
   */
  method RunCommands(host: Host, card: Card, rs: Response) returns (st: Status)
    requires rs.Valid() && rs.Value() == Blank && !card.v2 && card.ocr == 0 && !card.highCapacity
    modifies host`replies, host`trace, rs`r1, rs.r, card`v2, card`ocr, card`highCapacity
    ensures var c := Commands(old(host.replies));
      && st == c.status && card.v2 == c.card.v2 && card.ocr == c.card.ocr && card.highCapacity == c.card.highCapacity
      && host.replies == c.rest && host.trace == old(host.trace) + c.events
  {
    ghost var g := GoIdle(host.replies);
    st := GoIdleState(host);
    if st != Ok {
      return;
    }
    ghost var c8 := IfCond(host.replies, Cmd8Voltage, rs.Value());
    st := SendIfCond(host, Cmd8Voltage, rs);
    AppendAssoc(old(host.trace), g.events, c8.events);
    if st == Io {
      return;
    }
    card.v2 := st == Ok;
    if !card.v2 {
      return Unsupported;
    }
    ghost var r := Ready(host.replies, true, 0, false, rs.Value());
    st := ReadyCard(host, card, rs);
    AppendAssoc(old(host.trace), g.events + c8.events, r.events);
  }

  /** The rest of sd_init once CMD8 succeeded (src/sd_core.c:293-331). */
  method ReadyCard(host: Host, card: Card, rs: Response) returns (st: Status)
    requires rs.Valid()
    modifies host`replies, host`trace, rs`r1, rs.r, card`ocr, card`highCapacity
    ensures rs.Valid()
    ensures var r := Ready(old(host.replies), card.v2, old(card.ocr), old(card.highCapacity), old(rs.Value()));
      && st == r.status && card.ocr == r.ocr && card.highCapacity == r.highCapacity
      && host.replies == r.rest && host.trace == old(host.trace) + r.events
  {
    ghost var l := OpCondLoop(host.replies, card.v2, rs.Value(), TimeoutCntSdSendOpCond);
    OpCondPhase(host, card, rs);
    if R1InIdle(rs.Value()) {
      return Timeout;
    }
    ghost var p := LeftIdle(host.replies, card.ocr, card.highCapacity);
    st := LeftIdleCard(host, card);
    AppendAssoc(old(host.trace), l.events, p.events);
  }

  /** sd_init once the card left idle (src/sd_core.c:306-331). */
  method LeftIdleCard(host: Host, card: Card) returns (st: Status)
    modifies host`replies, host`trace, card`ocr, card`highCapacity
    ensures var p := LeftIdle(old(host.replies), old(card.ocr), old(card.highCapacity));
      && st == p.status && card.ocr == p.ocr && card.highCapacity == p.highCapacity
      && host.replies == p.rest && host.trace == old(host.trace) + p.events
  {
    ghost var o := OcrLoop(host.replies, card.ocr, card.highCapacity, TimeoutCntReadOcr);
    st := OcrPhase(host, card);
    if st != Ok {
      return;
    }
    if OcrPowerUpStatus(card.ocr) == 0 {
      return Timeout;
    }
    ghost var b := BlockLen(host.replies, SdDefaultBlockLen);
    st := SetBlockLen(host, card, SdDefaultBlockLen);
    AppendAssoc(old(host.trace), o.events, b.events);
  }

  /**
   * sd_init(host, card). A missing host, card, host operations table or bus
   * table is Param with nothing touched; otherwise the card is zeroed and
   * bound to the host, the prelude hooks run, and the command sequence
   * decides the status and the card record. The C code calls the delay hook
   * unconditionally, so a present operations table must provide it.
   */
  method Init(host: Host?, card: Card?) returns (st: Status)
    requires host != null && card != null && host.ops.Some? && host.bus.Some? ==> host.ops.value.hasDelay
    modifies host, card
    ensures host != null ==>
      unchanged(host`busKind, host`bus, host`busCtx, host`maxClockHz, host`supports4bit, host`supports1v8, host`ops)
    ensures host == null || card == null ==> st == Param
    ensures host == null && card != null ==> unchanged(card)
    ensures card == null && host != null ==> unchanged(host)
    ensures host != null && card != null && (host.ops.None? || host.bus.None?) ==>
      st == Param && unchanged(host, card)
    ensures host != null && card != null && host.ops.Some? && host.bus.Some? ==>
      var b := BringUp(old(host.replies), host.ops.value.hasSetPower, host.bus.value.hasSetClock);
      && st == b.status && card.State() == b.card && card.host == host
      && host.replies == b.rest && host.trace == old(host.trace) + b.events
  {
    if host == null || card == null {
      return Param;
    }
    if host.ops.None? || host.bus.None? {
      return Param;
    }
    st := BringUpCard(host, card);
  }

  /** sd_init past its parameter checks (src/sd_core.c:254-331). */
  method BringUpCard(host: Host, card: Card) returns (st: Status)
    requires host.ops.Some? && host.ops.value.hasDelay && host.bus.Some?
    modifies host`replies, host`trace, card
    ensures var b := BringUp(old(host.replies), host.ops.value.hasSetPower, host.bus.value.hasSetClock);
      && st == b.status && card.State() == b.card && card.host == host
      && host.replies == b.rest && host.trace == old(host.trace) + b.events
  {
    ResetCard(host, card);
    ghost var pre := Prelude(host.ops.value.hasSetPower, host.bus.value.hasSetClock);
    ghost var c := Commands(host.replies);
    st := ConfigureCard(host, card);
    AppendAssoc(old(host.trace), pre, c.events);
  }

  /** memset, the back-reference and the prelude hooks (src/sd_core.c:254-268). */
  method ResetCard(host: Host, card: Card)
    requires host.ops.Some? && host.ops.value.hasDelay && host.bus.Some?
    modifies host`trace, card
    ensures card.State() == ZeroCard && card.host == host
    ensures host.trace == old(host.trace) + Prelude(host.ops.value.hasSetPower, host.bus.value.hasSetClock)
  {
    card.Zero();
    card.host := host;
    PowerUp(host);
  }

  /** The command sequence on the zeroed card, with sd_init's local response (src/sd_core.c:270-331). */
  method ConfigureCard(host: Host, card: Card) returns (st: Status)
    requires card.State() == ZeroCard
    modifies host`replies, host`trace, card`v2, card`ocr, card`highCapacity
    ensures var c := Commands(old(host.replies));
      && st == c.status && card.State() == c.card
      && host.replies == c.rest && host.trace == old(host.trace) + c.events
  {
    var rs := new Response();
    st := RunCommands(host, card, rs);
    CommandsCard(old(host.replies));
  }

  /** The hook calls of sd_init before CMD0 (src/sd_core.c:258-268). */
  method PowerUp(host: Host)
    requires host.ops.Some? && host.ops.value.hasDelay && host.bus.Some?
    modifies host`trace
    ensures host.trace == old(host.trace) + Prelude(host.ops.value.hasSetPower, host.bus.value.hasSetClock)
  {
    if host.ops.value.hasSetPower {
      host.SetPower(true);
    }
    host.DelayMs(1);
    if host.bus.value.hasSetClock {
      host.SetClock(400000);
    }
  }
}
