/**
 * What sd_init promises, proved about the functions of SdCore that its
 * methods are proved equal to: the order of the commands, the bound on the
 * number of submits, how each outcome is classified, the card record on
 * success, the hooks before the first command, and how the bring-up reads
 * the replies of the SPI transport.
 */
module SdCoreProps {
  import opened SdTypes
  import opened SdDefines
  import opened SdHost
  import opened SdCore
  import SdSpi

  // ========== After CMD8 ==========

  /**
   * A card that is still idle after the ACMD41 loop is a Timeout: the loop
   * ran all 1000 iterations (exactly 1000 CMD55), at most two requests
   * each, nothing but CMD55/ACMD41
   * was sent, every ACMD41 right after a CMD55, and the card record is
   * untouched.
   */
  lemma ReadyStillIdle(q: seq<Reply>, v2: bool, ocr: bv32, hc: bool, rs: RespVal)
    requires R1InIdle(OpCondLoop(q, v2, rs, TimeoutCntSdSendOpCond).rs)
    ensures var r := Ready(q, v2, ocr, hc, rs);
      && r.status == Timeout && r.ocr == ocr && r.highCapacity == hc
      && TimeoutCntSdSendOpCond <= |r.events| <= 2 * TimeoutCntSdSendOpCond
      && AppCount(r.events) == TimeoutCntSdSendOpCond
      && |r.events| <= 2 * AppCount(r.events)
      && (forall k :: 0 <= k < |r.events| ==> r.events[k] == Sent(AppCmdRequest) || r.events[k] == Sent(OpCondRequest(v2)))
      && AcmdAfterApp(r.events, v2)
  {
    OpCondLoopCount(q, v2, rs, TimeoutCntSdSendOpCond);
    OpCondLoopSends(q, v2, rs, TimeoutCntSdSendOpCond);
    OpCondLoopPaired(q, v2, rs, TimeoutCntSdSendOpCond);
  }

  /**
   * Once the card left idle: every CMD58 but the last was accepted without
   * the power-up bit; an error of a CMD58 ends the bring-up with that error
   * (the failed submit's status, or Io on an R1 error) and only CMD58s
   * sent; ten reads without the power-up bit are a
   * Timeout; otherwise CMD16 with length 512 is the last request and its
   * status is the result, a failed submit's status unchanged.
   */
  lemma LeftIdleOutcome(q: seq<Reply>, ocr: bv32, hc: bool)
    ensures var o := OcrLoop(q, ocr, hc, TimeoutCntReadOcr); var p := LeftIdle(q, ocr, hc);
      && (o.status != Ok ==>
            && p.status == o.status && 1 <= |p.events| <= TimeoutCntReadOcr
            && (forall k :: 0 <= k < |p.events| ==> p.events[k] == Sent(ReadOcrRequest))
            && var rp := NthReply(q, |p.events| - 1);
               && (rp.status != Ok ==> p.status == rp.status)
               && (rp.status == Ok ==> Rejected(rp) && p.status == Io))
      && (forall k :: 0 <= k < |o.events| - 1 ==>
            NthReply(q, k).status == Ok && !Rejected(NthReply(q, k)) && OcrPowerUpStatus(ReplyOcr(NthReply(q, k))) == 0)
      && (o.status == Ok && OcrPowerUpStatus(o.ocr) == 0 ==>
            && p.status == Timeout && |p.events| == TimeoutCntReadOcr
            && forall k :: 0 <= k < |p.events| ==> p.events[k] == Sent(ReadOcrRequest))
      && (o.status == Ok && OcrPowerUpStatus(o.ocr) != 0 ==>
            && |p.events| == |o.events| + 1 && p.events[|o.events|] == Sent(BlockLenRequest(SdDefaultBlockLen))
            && (Answer(o.rest).status != Ok ==> p.status == Answer(o.rest).status)
            && (p.status == Ok <==> Answer(o.rest).status == Ok && !Rejected(Answer(o.rest))))
      && (p.status == Ok ==> Bit(p.ocr, 31))
  {
    OcrLoopCount(q, ocr, hc, TimeoutCntReadOcr);
    OcrLoopSends(q, ocr, hc, TimeoutCntReadOcr);
    OcrLoopEarlierReads(q, ocr, hc, TimeoutCntReadOcr);
    OcrLoopLastFailed(q, ocr, hc, TimeoutCntReadOcr);
    OcrLoopLastRejected(q, ocr, hc, TimeoutCntReadOcr);
  }

  /** The OCR and capacity flag left after the card left idle agree, from agreeing ones. */
  lemma LeftIdleAgrees(q: seq<Reply>, ocr: bv32, hc: bool)
    requires CapacityAgrees(ocr, hc)
    ensures CapacityAgrees(LeftIdle(q, ocr, hc).ocr, LeftIdle(q, ocr, hc).highCapacity)
  {
    OcrLoopAgrees(q, ocr, hc, TimeoutCntReadOcr);
  }

  /** The OCR and capacity flag the bring-up leaves always agree, from agreeing ones. */
  lemma ReadyAgrees(q: seq<Reply>, v2: bool, ocr: bv32, hc: bool, rs: RespVal)
    requires CapacityAgrees(ocr, hc)
    ensures CapacityAgrees(Ready(q, v2, ocr, hc, rs).ocr, Ready(q, v2, ocr, hc, rs).highCapacity)
  {
    var l := OpCondLoop(q, v2, rs, TimeoutCntSdSendOpCond);
    LeftIdleAgrees(l.rest, ocr, hc);
  }

  /** Once the card left idle, one to 10 + 1 requests, the first CMD58, each a submit. */
  lemma LeftIdleSends(q: seq<Reply>, ocr: bv32, hc: bool)
    ensures var p := LeftIdle(q, ocr, hc);
      && 1 <= |p.events| <= TimeoutCntReadOcr + 1
      && p.events[0] == Sent(ReadOcrRequest)
      && forall k :: 0 <= k < |p.events| ==> p.events[k].Sent?
  {
    var o := OcrLoop(q, ocr, hc, TimeoutCntReadOcr);
    OcrLoopCount(q, ocr, hc, TimeoutCntReadOcr);
    OcrLoopSends(q, ocr, hc, TimeoutCntReadOcr);
    assert forall k :: 0 <= k < |o.events| ==> o.events[k].Sent?;
  }

  /**
   * The requests after CMD8 begin with the ACMD41 loop's, which come from 1
   * to 1000 iterations (one CMD55 each) of at most two requests each.
   */
  lemma ReadyIterations(q: seq<Reply>, v2: bool, ocr: bv32, hc: bool, rs: RespVal)
    ensures var l := OpCondLoop(q, v2, rs, TimeoutCntSdSendOpCond);
      && l.events <= Ready(q, v2, ocr, hc, rs).events
      && 1 <= AppCount(l.events) <= TimeoutCntSdSendOpCond
      && |l.events| <= 2 * AppCount(l.events)
  {
    OpCondLoopCount(q, v2, rs, TimeoutCntSdSendOpCond);
  }

  /** After CMD8, at most 2 * 1000 + 10 + 1 requests, each a submit, the first CMD55. */
  lemma ReadySends(q: seq<Reply>, v2: bool, ocr: bv32, hc: bool, rs: RespVal)
    ensures var r := Ready(q, v2, ocr, hc, rs);
      && 1 <= |r.events| <= 2 * TimeoutCntSdSendOpCond + TimeoutCntReadOcr + 1
      && r.events[0] == Sent(AppCmdRequest)
      && forall k :: 0 <= k < |r.events| ==> r.events[k].Sent?
  {
    var l := OpCondLoop(q, v2, rs, TimeoutCntSdSendOpCond);
    OpCondLoopBound(q, v2, rs, TimeoutCntSdSendOpCond);
    OpCondLoopSends(q, v2, rs, TimeoutCntSdSendOpCond);
    assert forall k :: 0 <= k < |l.events| ==> l.events[k].Sent?;
    if !R1InIdle(l.rs) {
      LeftIdleSends(l.rest, ocr, hc);
    }
  }

  /** A successful run after the card left idle: one to ten CMD58, then CMD16 with length 512. */
  lemma LeftIdleOrder(q: seq<Reply>, ocr: bv32, hc: bool) returns (o: seq<HostEvent>)
    requires LeftIdle(q, ocr, hc).status == Ok
    ensures LeftIdle(q, ocr, hc).events == o + [Sent(BlockLenRequest(SdDefaultBlockLen))]
    ensures 1 <= |o| <= TimeoutCntReadOcr
    ensures forall k :: 0 <= k < |o| ==> o[k] == Sent(ReadOcrRequest)
  {
    OcrLoopCount(q, ocr, hc, TimeoutCntReadOcr);
    OcrLoopSends(q, ocr, hc, TimeoutCntReadOcr);
    o := OcrLoop(q, ocr, hc, TimeoutCntReadOcr).events;
  }

  /**
   * A successful run after CMD8: CMD55/ACMD41 starting with CMD55, one to
   * ten CMD58, then CMD16 with length 512.
   */
  lemma ReadyOrder(q: seq<Reply>, v2: bool, ocr: bv32, hc: bool, rs: RespVal) returns (l: seq<HostEvent>, o: seq<HostEvent>)
    requires Ready(q, v2, ocr, hc, rs).status == Ok
    ensures Ready(q, v2, ocr, hc, rs).events == l + o + [Sent(BlockLenRequest(SdDefaultBlockLen))]
    ensures 1 <= |l| <= 2 * TimeoutCntSdSendOpCond && l[0] == Sent(AppCmdRequest)
    ensures forall k :: 0 <= k < |l| ==> l[k] == Sent(AppCmdRequest) || l[k] == Sent(OpCondRequest(v2))
    ensures AcmdAfterApp(l, v2)
    ensures 1 <= |o| <= TimeoutCntReadOcr
    ensures forall k :: 0 <= k < |o| ==> o[k] == Sent(ReadOcrRequest)
  {
    var lc := ReadyLeftIdle(q, v2, ocr, hc, rs);
    OpCondLoopCount(q, v2, rs, TimeoutCntSdSendOpCond);
    OpCondLoopSends(q, v2, rs, TimeoutCntSdSendOpCond);
    OpCondLoopPaired(q, v2, rs, TimeoutCntSdSendOpCond);
    l := lc.events;
    o := LeftIdleOrder(lc.rest, ocr, hc);
    AppendAssoc(l, o, [Sent(BlockLenRequest(SdDefaultBlockLen))]);
  }

  /** A successful run after CMD8 left the ACMD41 loop with the card out of idle. */
  lemma ReadyLeftIdle(q: seq<Reply>, v2: bool, ocr: bv32, hc: bool, rs: RespVal) returns (lc: Call)
    requires Ready(q, v2, ocr, hc, rs).status == Ok
    ensures lc == OpCondLoop(q, v2, rs, TimeoutCntSdSendOpCond) && !R1InIdle(lc.rs)
    ensures LeftIdle(lc.rest, ocr, hc).status == Ok
    ensures Ready(q, v2, ocr, hc, rs).events == lc.events + LeftIdle(lc.rest, ocr, hc).events
  {
    lc := OpCondLoop(q, v2, rs, TimeoutCntSdSendOpCond);
  }

  // ========== The whole command sequence ==========

  /**
   * CMD0: a failed submit's status is the result, an R1 error or a card not
   * in idle is Io; either way CMD0 was the only request and the card record
   * stays zeroed.
   */
  lemma CommandsGoIdleFailure(q: seq<Reply>)
    requires GoIdle(q).status != Ok
    ensures var c := Commands(q);
      && c.events == [Sent(GoIdleRequest)] && c.card == ZeroCard
      && (Answer(q).status != Ok ==> c.status == Answer(q).status)
      && (Answer(q).status == Ok ==> c.status == Io)
  {
  }

  /**
   * CMD8: Io is returned; any other failure marks a first-generation card,
   * which is Unsupported; either way CMD0 and CMD8 were the only requests.
   * A card that accepted CMD8 is second-generation whatever comes next.
   */
  lemma CommandsIfCond(q: seq<Reply>)
    requires GoIdle(q).status == Ok
    ensures var a := Answer(Rest(q)); var c := Commands(q);
      && (a.status != Ok && a.status != Io ==>
            c.status == Unsupported && c.card == ZeroCard && !c.card.v2 && |c.events| == 2)
      && (a.status == Io || (a.status == Ok && (Rejected(a) || Deliver(Blank, a).r[0] & 0xFF != CheckPattern)) ==>
            c.status == Io && c.card == ZeroCard && |c.events| == 2)
      && (a.status == Ok && !Rejected(a) && Deliver(Blank, a).r[0] & 0xFF == CheckPattern ==>
            c.card.v2 && 2 < |c.events| && c.events[2] == Sent(AppCmdRequest))
  {
    var c8 := IfCond(Rest(q), Cmd8Voltage, Blank);
    if c8.status == Ok {
      ReadySends(c8.rest, true, 0, false, c8.rs);
    }
  }

  /** The events of a run that passed CMD8: CMD0, CMD8, then those of Ready. */
  lemma CommandsPassedIfCond(q: seq<Reply>)
    requires GoIdle(q).status == Ok && IfCond(Rest(q), Cmd8Voltage, Blank).status == Ok
    ensures var c8 := IfCond(Rest(q), Cmd8Voltage, Blank); var r := Ready(c8.rest, true, 0, false, c8.rs);
      && Commands(q).status == r.status
      && Commands(q).card == Configured(true, r.ocr, r.highCapacity)
      && Commands(q).events == [Sent(GoIdleRequest), Sent(IfCondRequest(Cmd8Voltage))] + r.events
  {
    var g := GoIdle(q);
    var c8 := IfCond(g.rest, Cmd8Voltage, Blank);
    assert g.events + c8.events == [Sent(GoIdleRequest), Sent(IfCondRequest(Cmd8Voltage))];
  }

  /**
   * The number of submits: at most 1 + 1 + 2 * 1000 + 10 + 1, all of them
   * requests, the first CMD0.
   */
  lemma CommandsSubmitBound(q: seq<Reply>)
    ensures var c := Commands(q);
      && 1 <= |c.events| <= 2 + 2 * TimeoutCntSdSendOpCond + TimeoutCntReadOcr + 1
      && c.events[0] == Sent(GoIdleRequest)
      && forall k :: 0 <= k < |c.events| ==> c.events[k].Sent?
  {
    var g := GoIdle(q);
    if g.status == Ok {
      var c8 := IfCond(g.rest, Cmd8Voltage, Blank);
      if c8.status == Ok {
        ReadySends(c8.rest, true, 0, false, c8.rs);
        CommandsPassedIfCond(q);
      }
    }
  }

  /**
   * The order of a successful bring-up: CMD0, CMD8, a run of CMD55/ACMD41
   * starting with CMD55, one to ten CMD58, and CMD16 with length 512.
   */
  lemma CommandsOrder(q: seq<Reply>) returns (l: seq<HostEvent>, o: seq<HostEvent>)
    requires Commands(q).status == Ok
    ensures Commands(q).events ==
      [Sent(GoIdleRequest), Sent(IfCondRequest(Cmd8Voltage))] + l + o + [Sent(BlockLenRequest(SdDefaultBlockLen))]
    ensures 1 <= |l| <= 2 * TimeoutCntSdSendOpCond && l[0] == Sent(AppCmdRequest)
    ensures forall k :: 0 <= k < |l| ==> l[k] == Sent(AppCmdRequest) || l[k] == Sent(OpCondRequest(true))
    ensures AcmdAfterApp(l, true)
    ensures 1 <= |o| <= TimeoutCntReadOcr
    ensures forall k :: 0 <= k < |o| ==> o[k] == Sent(ReadOcrRequest)
  {
    var c8 := IfCond(Rest(q), Cmd8Voltage, Blank);
    CommandsPassedIfCond(q);
    l, o := ReadyOrder(c8.rest, true, 0, false, c8.rs);
    var head := [Sent(GoIdleRequest), Sent(IfCondRequest(Cmd8Voltage))];
    var last := [Sent(BlockLenRequest(SdDefaultBlockLen))];
    AppendAssoc(head, l + o, last);
    AppendAssoc(head, l, o);
  }

  /**
   * The card record of a successful bring-up: a second-generation card, the
   * power-up bit set in its OCR, the capacity flag equal to the CCS bit, and
   * every other field (the block length among them) still zero.
   */
  lemma CommandsSuccess(q: seq<Reply>)
    requires Commands(q).status == Ok
    ensures var card := Commands(q).card;
      && card.v2 && Bit(card.ocr, 31) && card.highCapacity == Bit(card.ocr, 30)
      && card == Configured(true, card.ocr, card.highCapacity) && card.blockLen == 0
  {
    var c8 := IfCond(Rest(q), Cmd8Voltage, Blank);
    CommandsPassedIfCond(q);
    var l := OpCondLoop(c8.rest, true, c8.rs, TimeoutCntSdSendOpCond);
    LeftIdleOutcome(l.rest, 0, false);
    ReadyAgrees(c8.rest, true, 0, false, c8.rs);
  }

  /**
   * The hooks before the first command: power on exactly when the host has
   * a power hook, then the 1 ms delay, then 400 kHz exactly when the bus has
   * a clock hook; every later event is a submit, the first CMD0.
   */
  lemma BringUpHooks(q: seq<Reply>, powered: bool, clocked: bool)
    ensures var b := BringUp(q, powered, clocked);
      var k := (if powered then 1 else 0) + 1 + (if clocked then 1 else 0);
      && k < |b.events|
      && (b.events[0] == Powered(true) <==> powered)
      && b.events[k - 1 - (if clocked then 1 else 0)] == Delayed(1)
      && (b.events[k - 1] == Clocked(400000) <==> clocked)
      && (forall i :: 0 <= i < k ==> !b.events[i].Sent?)
      && b.events[k] == Sent(GoIdleRequest)
      && (forall i :: k <= i < |b.events| ==> b.events[i].Sent?)
  {
    CommandsSubmitBound(q);
    var pre := Prelude(powered, clocked);
    assert |pre| == (if powered then 1 else 0) + 1 + (if clocked then 1 else 0);
    assert forall i :: 0 <= i < |pre| ==> !pre[i].Sent?;
  }

  // ========== Reading SPI replies ==========

  /**
   * A submit the SPI transport reports as Ok never carries an R1 error, so
   * r1_is_error is false after it whatever the response held before.
   */
  lemma SpiOkNeverRejected(q: seq<bv8>, rq: Request, delays: bool, rs: RespVal)
    ensures var rp := SdSpi.SubmitOnWire(q, rq, delays).reply;
      rp.status == Ok ==> !Rejected(rp) && !R1IsError(Deliver(rs, rp))
  {
    SdSpi.SubmitShaped(q, rq, delays);
  }

  /**
   * For an R1 request the SPI transport copies R1 into r[0], so r1_in_idle
   * after an Ok submit is the idle bit of the R1 byte itself.
   */
  lemma SpiIdleIsR1Idle(q: seq<bv8>, rq: Request, delays: bool, rs: RespVal)
    requires rq.resp == R1
    ensures var rp := SdSpi.SubmitOnWire(q, rq, delays).reply;
      rp.status == Ok ==> (R1InIdle(Deliver(rs, rp)) <==> rp.r1 & 0x01 == 0x01)
  {
    SdSpi.SubmitOk(q, rq, delays);
    var rp := SdSpi.SubmitOnWire(q, rq, delays).reply;
    if rp.status == Ok {
      assert rp.words == [rp.r1 as bv32];
      assert (rp.r1 as bv32) & 0x01 == (rp.r1 & 0x01) as bv32;
    }
  }

  /**
   * A submit the SPI transport times out stores 0xFF as R1 and leaves every
   * word of the response as it was.
   */
  lemma SpiTimeoutKeepsWords(q: seq<bv8>, rq: Request, delays: bool, rs: RespVal)
    ensures var rp := SdSpi.SubmitOnWire(q, rq, delays).reply;
      rp.status != Ok ==> rp.status == Timeout && Deliver(rs, rp) == RespVal(0xFF, rs.r)
  {
    SdSpi.SubmitTimeout(q, rq, delays);
  }

  /**
   * CMD0 over the SPI transport: OK exactly when the card answered with R1
   * showing idle (R1 = 0x01 is OK, R1 = 0x00 is Io), a poll timeout otherwise.
   */
  lemma GoIdleOverSpi(q: seq<bv8>, delays: bool)
    ensures var rp := SdSpi.SubmitOnWire(q, GoIdleRequest, delays).reply;
      && (GoIdle([rp]).status == Ok <==> rp.status == Ok && rp.r1 & 0x01 == 0x01)
      && (GoIdle([rp]).status != Ok ==> GoIdle([rp]).status == Timeout || GoIdle([rp]).status == Io)
      && (rp.status == Ok && rp.r1 == 0x01 ==> GoIdle([rp]).status == Ok)
      && (rp.status == Ok && rp.r1 == 0x00 ==> GoIdle([rp]).status == Io)
  {
    SpiIdleIsR1Idle(q, GoIdleRequest, delays, Blank);
    SpiOkNeverRejected(q, GoIdleRequest, delays, Blank);
    SpiTimeoutKeepsWords(q, GoIdleRequest, delays, Blank);
  }

  // ========== Two runs ==========

  /** A card answering as a powered-up high-capacity card is brought up in six submits. */
  lemma HappyPath()
    ensures var q := [
        Reply(Ok, 0x01, [0x01]),
        Reply(Ok, 0x01, [0x1AA]),
        Reply(Ok, 0x01, [0x01]),
        Reply(Ok, 0x00, [0x00]),
        Reply(Ok, 0x00, [0xC0FF_8000]),
        Reply(Ok, 0x00, [0x00])];
      Commands(q) == InitOut(Ok, Configured(true, 0xC0FF_8000, true),
        [Sent(GoIdleRequest), Sent(IfCondRequest(Cmd8Voltage)), Sent(AppCmdRequest), Sent(OpCondRequest(true)),
         Sent(ReadOcrRequest), Sent(BlockLenRequest(SdDefaultBlockLen))], [])
  {
    var q := [
        Reply(Ok, 0x01, [0x01]),
        Reply(Ok, 0x01, [0x1AA]),
        Reply(Ok, 0x01, [0x01]),
        Reply(Ok, 0x00, [0x00]),
        Reply(Ok, 0x00, [0xC0FF_8000]),
        Reply(Ok, 0x00, [0x00])];
    var c8 := IfCond(Rest(q), Cmd8Voltage, Blank);
    assert GoIdle(q).status == Ok;
    assert c8.status == Ok && c8.rs == RespVal(0x01, [0x1AA, 0, 0, 0]) && c8.rest == q[2..];
    HappyReady();
    CommandsPassedIfCond(q);
    assert [Sent(GoIdleRequest), Sent(IfCondRequest(Cmd8Voltage))]
        + [Sent(AppCmdRequest), Sent(OpCondRequest(true)), Sent(ReadOcrRequest), Sent(BlockLenRequest(SdDefaultBlockLen))]
        == [Sent(GoIdleRequest), Sent(IfCondRequest(Cmd8Voltage)), Sent(AppCmdRequest), Sent(OpCondRequest(true)),
            Sent(ReadOcrRequest), Sent(BlockLenRequest(SdDefaultBlockLen))];
  }

  /** The part of the powered-up SDHC bring-up after CMD8. */
  lemma HappyReady()
    ensures var q := [
        Reply(Ok, 0x01, [0x01]),
        Reply(Ok, 0x00, [0x00]),
        Reply(Ok, 0x00, [0xC0FF_8000]),
        Reply(Ok, 0x00, [0x00])];
      Ready(q, true, 0, false, RespVal(0x01, [0x1AA, 0, 0, 0])) ==
        OcrCall(Ok, 0xC0FF_8000, true,
          [Sent(AppCmdRequest), Sent(OpCondRequest(true)), Sent(ReadOcrRequest), Sent(BlockLenRequest(SdDefaultBlockLen))], [])
  {
    HappyOpCondLoop();
    HappyLeftIdle();
    assert [Sent(AppCmdRequest), Sent(OpCondRequest(true))] + [Sent(ReadOcrRequest), Sent(BlockLenRequest(SdDefaultBlockLen))]
        == [Sent(AppCmdRequest), Sent(OpCondRequest(true)), Sent(ReadOcrRequest), Sent(BlockLenRequest(SdDefaultBlockLen))];
  }

  /** The ACMD41 loop of the powered-up SDHC bring-up: the card leaves idle on the first ACMD41. */
  lemma HappyOpCondLoop()
    ensures var q := [
        Reply(Ok, 0x01, [0x01]),
        Reply(Ok, 0x00, [0x00]),
        Reply(Ok, 0x00, [0xC0FF_8000]),
        Reply(Ok, 0x00, [0x00])];
      OpCondLoop(q, true, RespVal(0x01, [0x1AA, 0, 0, 0]), TimeoutCntSdSendOpCond) ==
        Call(Ok, RespVal(0x00, [0, 0, 0, 0]), [Sent(AppCmdRequest), Sent(OpCondRequest(true))],
          [Reply(Ok, 0x00, [0xC0FF_8000]), Reply(Ok, 0x00, [0x00])])
  {
  }

  /** The OCR read and CMD16 of the powered-up SDHC bring-up. */
  lemma HappyLeftIdle()
    ensures LeftIdle([Reply(Ok, 0x00, [0xC0FF_8000]), Reply(Ok, 0x00, [0x00])], 0, false) ==
      OcrCall(Ok, 0xC0FF_8000, true, [Sent(ReadOcrRequest), Sent(BlockLenRequest(SdDefaultBlockLen))], [])
  {
    PoweredHighCapacityOcr();
    var o := OcrLoop([Reply(Ok, 0x00, [0xC0FF_8000]), Reply(Ok, 0x00, [0x00])], 0, false, TimeoutCntReadOcr);
    assert o == OcrCall(Ok, 0xC0FF_8000, true, [Sent(ReadOcrRequest)], [Reply(Ok, 0x00, [0x00])]);
  }

  /**
   * A CMD55 that times out in the first ACMD41 iteration leaves the CMD8
   * echo 0x1AA in r[0], whose bit 0 is clear: the loop ends as if the card
   * had left idle, and the bring-up can succeed without any ACMD41 sent.
   */
  lemma StaleEchoEndsOpCondLoop()
    ensures var q := [
        Reply(Ok, 0x01, [0x01]),
        Reply(Ok, 0x01, [0x1AA]),
        Silent,
        Reply(Ok, 0x00, [0xC0FF_8000]),
        Reply(Ok, 0x00, [0x00])];
      && Commands(q).status == Ok
      && Commands(q).events == [Sent(GoIdleRequest), Sent(IfCondRequest(Cmd8Voltage)), Sent(AppCmdRequest),
                                Sent(ReadOcrRequest), Sent(BlockLenRequest(SdDefaultBlockLen))]
  {
    var q := [
        Reply(Ok, 0x01, [0x01]),
        Reply(Ok, 0x01, [0x1AA]),
        Silent,
        Reply(Ok, 0x00, [0xC0FF_8000]),
        Reply(Ok, 0x00, [0x00])];
    PoweredHighCapacityOcr();
    var c8 := IfCond(Rest(q), Cmd8Voltage, Blank);
    assert c8.status == Ok && c8.rs == RespVal(0x01, [0x1AA, 0, 0, 0]);
    var l := OpCondLoop(c8.rest, true, c8.rs, TimeoutCntSdSendOpCond);
    assert l.rs.r[0] == 0x1AA && l.events == [Sent(AppCmdRequest)];
    var o := OcrLoop(l.rest, 0, false, TimeoutCntReadOcr);
    assert o == OcrCall(Ok, 0xC0FF_8000, true, [Sent(ReadOcrRequest)], [Reply(Ok, 0x00, [0x00])]);
  }
}
