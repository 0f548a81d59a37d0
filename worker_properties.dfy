/**
 * What one iteration of TASK_ETHERNET does for each kind of dequeued
 * command, for a receive timeout and for a stop request, and how those
 * iterations combine.
 */
module WorkerProperties {
  import opened EthTypes
  import opened Wrappers
  import opened Classifier
  import opened FramePumps
  import opened Lockup
  import opened Worker

  /** HW_INT: the status register is read and cleared and the snapshot expanded at the front, or OTHER appended at the back. */
  lemma HwIntDispatch(s: Eth, env: ChipReads)
    requires s.phase == Running && ReadsFit(env) && s.started
    requires s.queue != [] && s.queue[0].HwInt? && |s.queue| <= QUEUE_SIZE
    requires |s.queue| - 1 + KnownBits(env.intStatus) <= QUEUE_SIZE
    ensures var r := Step(s, env);
      && r.trace == s.trace + [ReadReg(IntStatus), WriteReg(IntStatus, 0xFFFF)]
      && r.queue == (if KnownBits(env.intStatus) > 0 then FrontAfter(env.intStatus) + s.queue[1..]
                     else s.queue[1..] + [Other(env.intStatus)])
      && r == s.(queue := r.queue, trace := r.trace)
  {
    if KnownBits(env.intStatus) > 0 {
      ClassifierExpansion(s.queue[1..], env.intStatus);
    } else {
      ClassifierFallback(s.queue[1..], env.intStatus);
    }
  }

  /** RX: the frames counted at entry are all retrieved, and exactly the non-empty ones reach the network stack, in order. */
  lemma RxDispatch(s: Eth, env: ChipReads)
    requires s.phase == Running && ReadsFit(env) && s.started
    requires s.queue != [] && s.queue[0].Rx?
    ensures var r := Step(s, env);
      var n := FrameCount(env.rxFrameReg);
      && |r.trace| >= |s.trace| + 1 && r.trace[..|s.trace| + 1] == s.trace + [ReadReg(RxFrameCntThres)]
      && EthInputs(r.trace[|s.trace| + 1..]) == NonZero(env.frameLens)
      && Retrievals(r.trace[|s.trace| + 1..]) == Countdown(n, n)
      && r == s.(queue := s.queue[1..], trace := r.trace)
  {
    var r := Step(s, env);
    var n := FrameCount(env.rxFrameReg);
    assert r.trace == s.trace + [ReadReg(RxFrameCntThres)] + RxTrace(env.frameLens, n);
    assert r.trace[|s.trace| + 1..] == RxTrace(env.frameLens, n);
    RxDeliversNonZeroFrames(env.frameLens, n);
    RxRetrievesEveryFrame(env.frameLens, n);
  }

  /** TX: no chip call while the link is down; otherwise exactly begin, data, end. */
  lemma TxDispatch(s: Eth, env: ChipReads)
    requires s.phase == Running && ReadsFit(env) && s.started
    requires s.queue != [] && s.queue[0].Tx?
    ensures var r := Step(s, env);
      && (!s.linkStatus ==> r == s.(queue := s.queue[1..]))
      && (s.linkStatus ==>
            r == s.(queue := s.queue[1..],
                    trace := s.trace + [BeginPacketSend(s.queue[0].len),
                                        SendPacketData(s.queue[0].buf, s.queue[0].len),
                                        EndPacketSend]))
  {
  }

  /** A frame is handed to the chip only while CONNECTED is the last event the driver sent. */
  lemma TxOnlyWhileConnected(s: Eth, env: ChipReads)
    requires Inv(s) && s.phase == Running && ReadsFit(env) && s.started
    requires s.queue != [] && s.queue[0].Tx?
    ensures Step(s, env).trace != s.trace ==> LastEvent(s.trace) == Some(EthConnected)
  {
  }

  /** CHK_LINK: the link follows the chip's link bit and the matching event is sent. */
  lemma ChkLinkDispatch(s: Eth, env: ChipReads)
    requires s.phase == Running && ReadsFit(env) && s.started
    requires s.queue != [] && s.queue[0].ChkLink?
    ensures var r := Step(s, env);
      && r.linkStatus == env.linkUp
      && LastEvent(r.trace) == Some(if env.linkUp then EthConnected else EthDisconnected)
      && r == s.(queue := s.queue[1..], linkStatus := env.linkUp,
                 trace := s.trace + [GetLinkStatus, Emit(if env.linkUp then EthConnected else EthDisconnected)])
  {
    LastEventAfterEmit(s.trace, [GetLinkStatus], if env.linkUp then EthConnected else EthDisconnected);
    assert s.trace + [GetLinkStatus, Emit(if env.linkUp then EthConnected else EthDisconnected)]
      == s.trace + [GetLinkStatus] + [Emit(if env.linkUp then EthConnected else EthDisconnected)];
  }

  /** OVERRUN: queue emptied, link down, power-down / DISCONNECTED / delay / init; no counter moves. */
  lemma OverrunDispatch(s: Eth, env: ChipReads)
    requires s.phase == Running && ReadsFit(env) && s.started
    requires s.queue != [] && s.queue[0].Overrun?
    ensures var r := Step(s, env);
      && r.queue == [] && !r.linkStatus
      && r.trace == s.trace + [PowerDown, Emit(EthDisconnected), Delay(100), ChipInit]
      && r.resetsOverflow == s.resetsOverflow && r.resetsIntPin == s.resetsIntPin
      && r.strangeIsr == s.strangeIsr && r.strangeIsrZero == s.strangeIsrZero
      && r == s.(queue := [], linkStatus := false, trace := r.trace)
  {
  }

  /** The default case: OTHER counts one strange interrupt, and one more zero-snapshot one iff its snapshot is 0; both uint16_t counters wrap. */
  lemma UnmatchedDispatch(s: Eth, env: ChipReads)
    requires s.phase == Running && ReadsFit(env) && s.started
    requires s.queue != [] && s.queue[0].Other?
    ensures var r := Step(s, env);
      && r.strangeIsr == Inc16(s.strangeIsr)
      && r.strangeIsrZero == (if s.queue[0].isr == 0 then Inc16(s.strangeIsrZero) else s.strangeIsrZero)
      && r == s.(queue := s.queue[1..], strangeIsr := r.strangeIsr, strangeIsrZero := r.strangeIsrZero)
  {
  }

  /**
   * Receive timeout: the poll counts at most MAX_TIMEOUT low reads; recovery
   * runs and num_resets_int_pin moves iff every one of them was low, and a
   * high read leaves everything but the delays untouched.
   */
  lemma TimeoutPoll(s: Eth, env: ChipReads)
    requires s.phase == Running && ReadsFit(env) && s.started && s.queue == []
    ensures var r := Step(s, env);
      && LowPolls(env.pins, MAX_TIMEOUT) <= MAX_TIMEOUT
      && (LockedUp(env.pins) ==>
            r == s.(queue := [], linkStatus := false, resetsIntPin := Inc16(s.resetsIntPin),
                    trace := s.trace + PollDelays(MAX_TIMEOUT) + RESET_SEQUENCE))
      && (!LockedUp(env.pins) ==>
            LowPolls(env.pins, MAX_TIMEOUT) < MAX_TIMEOUT
            && r == s.(trace := s.trace + PollDelays(LowPolls(env.pins, MAX_TIMEOUT))))
  {
    LowPollsReachesLimit(env.pins, MAX_TIMEOUT);
  }

  /** Stop request seen at the top of the loop: back to eth_start with the buffer freed and the link down. */
  lemma StopRequested(s: Eth, env: ChipReads)
    requires s.phase == Running && ReadsFit(env) && !s.started
    ensures var r := Step(s, env);
      && r.phase == WaitingForStart && r.queue == [] && !r.linkStatus && !r.rxBuff
      && r.trace == s.trace + [FreeRxBuff, Emit(EthDisconnected), WriteReg(IntMask, 0)]
      && r == s.(queue := [], linkStatus := false, rxBuff := false, phase := WaitingForStart, trace := r.trace)
  {
  }

  /**
   * The overrun path and the lockup path end in the same queue, link state
   * and final calls; only the lockup path counts the reset.
   */
  lemma RecoveryPathsAgree(s: Eth, t: Eth, env: ChipReads, env': ChipReads)
    requires s.phase == Running && ReadsFit(env) && s.started && s.queue != [] && s.queue[0].Overrun?
    requires t.phase == Running && ReadsFit(env') && t.started && t.queue == [] && LockedUp(env'.pins)
    ensures var a := Step(s, env);
      var b := Step(t, env');
      && a.queue == b.queue == []
      && !a.linkStatus && !b.linkStatus
      && a.trace[|a.trace| - 4..] == b.trace[|b.trace| - 4..] == RESET_SEQUENCE
      && a.resetsIntPin == s.resetsIntPin && a.resetsOverflow == s.resetsOverflow
      && b.resetsIntPin == Inc16(t.resetsIntPin) && b.resetsOverflow == t.resetsOverflow
  {
    OverrunDispatch(s, env);
    TimeoutPoll(t, env');
  }

  /**
   * RX and OVERRUN latched together: OVERRUN is dequeued first and its
   * reset discards the RX command queued beside it.
   */
  lemma OverrunDiscardsQueuedRx(s: Eth, env: ChipReads, env': ChipReads)
    requires s.phase == Running && ReadsFit(env) && ReadsFit(env') && s.started
    requires s.queue != [] && s.queue[0].HwInt? && |s.queue| + 1 <= QUEUE_SIZE
    requires env.intStatus & INT_RX != 0 && env.intStatus & INT_RX_OVERRUN != 0 && env.intStatus & INT_PHY == 0
    ensures var s1 := Step(s, env);
      && s1.phase == Running && s1.started && |s1.queue| >= 2
      && s1.queue[..2] == [Overrun(env.intStatus), Rx(env.intStatus)]
      && Step(s1, env').queue == []
  {
    HwIntDispatch(s, env);
  }

  /**
   * eth_init_helper runs its body once: a started driver is left as it is,
   * a failed allocation leaves it unstarted with the error, and a second
   * call after a successful one changes nothing.
   */
  lemma InitStartsOnce(s: Eth, allocOk: bool, again: bool)
    ensures var (r, res) := Init(s, allocOk);
      && (s.started ==> r == s && res.Ok?)
      && (!s.started && !allocOk ==> !r.started && !r.rxBuff && res == Err(RxBufferAllocFailed))
      && (!s.started && allocOk ==> r.started && r.rxBuff && res.Ok?)
      && (r.started ==> Init(r, again) == (r, Ok(())))
  {
  }

  /** The ISR bridge drops the HW_INT notification when the queue is full and front-pushes it otherwise. */
  lemma IsrPushFrontOrDrop(s: Eth, isr: bv16)
    ensures var r := IsrPush(s, isr);
      && (|s.queue| >= QUEUE_SIZE ==> r == s)
      && (|s.queue| < QUEUE_SIZE ==> r.queue[0] == HwInt(isr) && r.queue[1..] == s.queue && r == s.(queue := r.queue))
  {
  }

  /**
   * The event handler keeps the connected bit in step with GOT_IP and
   * DISCONNECTED, and an ETH_STOP event makes the next iteration of the
   * task take the stop branch whatever is queued.
   */
  lemma StopEventStopsWorker(s: Eth, env: ChipReads)
    requires s.phase == Running && ReadsFit(env)
    ensures HandleEvent(s, EthGotIp).connected && !HandleEvent(s, EthDisconnected).connected
    ensures var r := Step(HandleEvent(s, EthStop), env);
      && r.phase == WaitingForStart && r.queue == [] && !r.started && !r.rxBuff
  {
  }
}
