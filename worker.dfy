/**
 * TASK_ETHERNET and the code that feeds it (esp32/mods/modeth.c), as
 * transitions of one value-level driver state. The class in module Driver
 * performs the same transitions in place; its methods are proved against
 * these functions, and the properties of the driver are proved here.
 */
module Worker {
  import opened EthTypes
  import opened Wrappers
  import opened Classifier
  import opened FramePumps
  import opened Lockup
  import opened MacAddress

  /** Lifecycle of TASK_ETHERNET; the restart `goto eth_start` becomes a return to WaitingForStart. */
  datatype Phase =
    | Boot             // blocked on the first task notification, MAC not yet read
    | WaitingForStart  // at eth_start: queue reset, waiting for ETHERNET_EVT_STARTED
    | Running          // inside the for(;;) loop
    | Stalled          // blocked for good in a worker-side push into a full queue

  /** The driver's state: queue, flags, MAC copies, diagnostic counters and the calls made so far. */
  datatype Eth = Eth(
    queue: seq<Command>,    // eth_cmdQueue, front first
    linkStatus: bool,       // eth_obj.link_status
    started: bool,          // ETHERNET_EVT_STARTED of eth_event_group
    connected: bool,        // ETHERNET_EVT_CONNECTED of eth_event_group
    rxBuff: bool,           // modeth_rxBuff holds an allocation
    phase: Phase,
    mac: seq<Byte>,         // ethernet_mac
    objMac: seq<Byte>,      // eth_obj.mac
    resetsIntPin: U16,      // num_resets_int_pin
    resetsOverflow: U16,    // num_resets_overflow
    strangeIsr: U16,        // num_strange_isr
    strangeIsrZero: U16,    // num_strange_isr_zero
    trace: seq<Effect>)

  /** What the worker reads from the chip and the interrupt pin during one loop iteration. */
  datatype ChipReads = ChipReads(
    intStatus: bv16,        // REG_INT_STATUS, read by processInterrupt
    rxFrameReg: bv16,       // REG_RX_FRAME_CNT_THRES, read by process_rx
    frameLens: seq<U32>,    // lengths returned by successive frame retrievals
    linkUp: bool,           // ksz8851GetLinkStatus()
    pins: seq<bool>)        // successive reads of the interrupt pin (true = high)

  predicate ReadsFit(env: ChipReads) {
    |env.frameLens| == FrameCount(env.rxFrameReg) && |env.pins| > MAX_TIMEOUT
  }

  /** The power-down / notify / reinitialise sequence shared by overrun and lockup recovery. */
  const RESET_SEQUENCE: seq<Effect> := [PowerDown, Emit(EthDisconnected), Delay(100), ChipInit]

  /** Calls of the stop transition: free the receive buffer, report the link down, mask chip interrupts. */
  const STOP_SEQUENCE: seq<Effect> := [FreeRxBuff, Emit(EthDisconnected), WriteReg(IntMask, 0x0000)]

  function Initial(): Eth {
    Eth([], false, false, false, false, Boot, [0, 0, 0, 0, 0, 0], [0, 0, 0, 0, 0, 0], 0, 0, 0, 0, [])
  }

  /** The last event sent, if any. */
  function LastEvent(t: seq<Effect>): Option<SysEvent>
    decreases |t|
  {
    if t == [] then None
    else if t[|t| - 1].Emit? then Some(t[|t| - 1].event)
    else LastEvent(t[..|t| - 1])
  }

  ghost predicate NoEmit(t: seq<Effect>) {
    forall i | 0 <= i < |t| :: !t[i].Emit?
  }

  /**
   * Invariant of the driver: the queue within its capacity, six-byte MACs,
   * the receive buffer allocated while started, the link down outside the
   * run loop, and the link up only while CONNECTED is the last event sent.
   */
  ghost predicate Inv(s: Eth) {
    && |s.queue| <= QUEUE_SIZE
    && |s.mac| == MAC_SIZE && |s.objMac| == MAC_SIZE
    && (s.started ==> s.rxBuff)
    && (s.phase == Boot || s.phase == WaitingForStart ==> !s.linkStatus)
    && (s.linkStatus ==> LastEvent(s.trace) == Some(EthConnected))
  }

  // ---- producers -------------------------------------------------------

  /** ksz8851_evt_callback: front-push HW_INT from interrupt context; a full queue drops it. */
  function IsrPush(s: Eth, isr: bv16): Eth {
    if |s.queue| < QUEUE_SIZE then s.(queue := [HwInt(isr)] + s.queue) else s
  }

  /** A TX request from the network stack, back-pushed once there is room. */
  function EnqueueTx(s: Eth, buf: seq<Byte>, len: U16): Eth
    requires |s.queue| < QUEUE_SIZE
  {
    s.(queue := s.queue + [Tx(buf, len)])
  }

  // ---- the handlers of one dispatched command --------------------------

  /** processInterrupt: read and clear the status register, then expand the snapshot into commands. */
  function Classify(s: Eth, isr: bv16): Eth {
    var t := s.trace + [ReadReg(IntStatus), WriteReg(IntStatus, INT_STATUS_CLEAR_ALL)];
    match ClassifyQueue(s.queue, isr)
    case Done(q) => s.(queue := q, trace := t)
    case Blocked(q) => s.(queue := q, trace := t, phase := Stalled)
  }

  /** process_rx: read the frame count, then drain that many frames. */
  function ReceiveFrames(s: Eth, frameReg: bv16, lens: seq<U32>): Eth
    requires |lens| == FrameCount(frameReg)
  {
    s.(trace := s.trace + ([ReadReg(RxFrameCntThres)] + RxTrace(lens, |lens|)))
  }

  /** process_tx. */
  function Transmit(s: Eth, buf: seq<Byte>, len: U16): Eth {
    s.(trace := s.trace + TxTrace(s.linkStatus, buf, len))
  }

  /** ETH_CMD_CHK_LINK: take the chip's link bit and report it. */
  function CheckLink(s: Eth, up: bool): Eth {
    s.(linkStatus := up,
       trace := s.trace + [GetLinkStatus, Emit(if up then EthConnected else EthDisconnected)])
  }

  /** Recovery: reset the queue, mark the link down, power-cycle and reinitialise the chip. */
  function ResetChip(s: Eth): Eth {
    s.(queue := [], linkStatus := false, trace := s.trace + RESET_SEQUENCE)
  }

  /** The `default` case: count an unexpected command, and separately one with a zero snapshot. */
  function Unmatched(s: Eth, isr: bv16): Eth {
    s.(strangeIsr := Inc16(s.strangeIsr),
       strangeIsrZero := if isr == 0 then Inc16(s.strangeIsrZero) else s.strangeIsrZero)
  }

  /** The receive-timeout branch: poll the pin; MAX_TIMEOUT low reads force a recovery. */
  function PollLockup(s: Eth, pins: seq<bool>): Eth
    requires |pins| > MAX_TIMEOUT
  {
    var timeout := LowPolls(pins, MAX_TIMEOUT);
    var polled := s.(trace := s.trace + PollDelays(timeout));
    if timeout >= MAX_TIMEOUT then ResetChip(polled.(resetsIntPin := Inc16(s.resetsIntPin))) else polled
  }

  /** The switch on the dequeued command. */
  function Dispatch(s: Eth, cmd: Command, env: ChipReads): Eth
    requires ReadsFit(env)
  {
    match cmd
    case Tx(buf, len) => Transmit(s, buf, len)
    case HwInt(_) => Classify(s, env.intStatus)
    case Rx(_) => ReceiveFrames(s, env.rxFrameReg, env.frameLens)
    case ChkLink(_) => CheckLink(s, env.linkUp)
    case Overrun(_) => ResetChip(s)
    case Other(isr) => Unmatched(s, isr)
  }

  /** The stop transition: back to eth_start with the queue reset. */
  function Stop(s: Eth): Eth {
    s.(queue := [], rxBuff := false, linkStatus := false, phase := WaitingForStart,
       trace := s.trace + STOP_SEQUENCE)
  }

  /** One iteration of the for(;;) loop of TASK_ETHERNET. */
  function Step(s: Eth, env: ChipReads): Eth
    requires s.phase == Running && ReadsFit(env)
  {
    if !s.started then Stop(s)
    else if s.queue == [] then PollLockup(s, env.pins)
    else Dispatch(s.(queue := s.queue[1..]), s.queue[0], env)
  }

  // ---- lifecycle --------------------------------------------------------

  /** First run of the task: choose the MAC, init SPI, register the ISR bridge, reach eth_start. */
  function BootTask(s: Eth, readMac: Option<seq<Byte>>, defaults: seq<Byte>): Eth
    requires |defaults| == MAC_SIZE
    requires readMac.Some? ==> |readMac.value| == MAC_SIZE
  {
    var m := EthernetMac(readMac, defaults);
    s.(mac := m, objMac := m, trace := s.trace + [SpiInit, RegisterEvtCb], queue := [], phase := WaitingForStart)
  }

  /** Past the wait for ETHERNET_EVT_STARTED: initialise the chip and send START. */
  function Start(s: Eth): Eth {
    s.(phase := Running, trace := s.trace + [ChipInit, Emit(EthStart)])
  }

  datatype InitError = RxBufferAllocFailed

  /** The start-once guard of eth_init_helper; `allocOk` is the outcome of heap_caps_malloc. */
  function Init(s: Eth, allocOk: bool): (Eth, Result<(), InitError>) {
    if s.started then (s, Ok(()))
    else if !allocOk then (s.(rxBuff := false), Err(RxBufferAllocFailed))
    else (s.(rxBuff := true, started := true), Ok(()))
  }

  /** modeth_event_handler: the event-group bit updates and NIC (de)registration. */
  function HandleEvent(s: Eth, ev: SysEvent): Eth {
    match ev
    case EthDisconnected => s.(connected := false, trace := s.trace + [DeregisterNic])
    case EthGotIp => s.(connected := true, trace := s.trace + [RegisterNic])
    case EthStop => s.(started := false)
    case _ => s
  }

  // ---- lemmas about events ------------------------------------------------

  lemma {:induction false} LastEventQuietSuffix(t: seq<Effect>, u: seq<Effect>)
    requires NoEmit(u)
    ensures LastEvent(t + u) == LastEvent(t)
    decreases |u|
  {
    if u == [] {
      assert t + u == t;
    } else {
      assert (t + u)[..|t + u| - 1] == t + u[..|u| - 1];
      LastEventQuietSuffix(t, u[..|u| - 1]);
    }
  }

  lemma {:induction false} RxTraceQuiet(lens: seq<U32>, remaining: nat)
    requires |lens| <= remaining
    ensures NoEmit(RxTrace(lens, remaining))
    decreases |lens|
  {
    if lens != [] {
      RxTraceQuiet(lens[1..], remaining - 1);
    }
  }

  lemma LastEventAfterEmit(t: seq<Effect>, u: seq<Effect>, ev: SysEvent)
    ensures LastEvent(t + u + [Emit(ev)]) == Some(ev)
  {
  }

  // ---- invariant --------------------------------------------------------

  lemma InitialInv()
    ensures Inv(Initial())
  {
  }

  lemma {:induction false} ClassifyInv(s: Eth, isr: bv16)
    requires Inv(s)
    ensures Inv(Classify(s, isr))
    ensures var r := Classify(s, isr);
      && r.linkStatus == s.linkStatus && r.started == s.started && r.connected == s.connected
      && r.rxBuff == s.rxBuff && LastEvent(r.trace) == LastEvent(s.trace)
  {
    ClassifierGrowth(s.queue, isr);
    LastEventQuietSuffix(s.trace, [ReadReg(IntStatus), WriteReg(IntStatus, INT_STATUS_CLEAR_ALL)]);
  }

  lemma {:induction false} ReceiveFramesInv(s: Eth, frameReg: bv16, lens: seq<U32>)
    requires Inv(s) && |lens| == FrameCount(frameReg)
    ensures Inv(ReceiveFrames(s, frameReg, lens))
    ensures var r := ReceiveFrames(s, frameReg, lens);
      r == s.(trace := r.trace) && LastEvent(r.trace) == LastEvent(s.trace)
  {
    RxTraceQuiet(lens, |lens|);
    LastEventQuietSuffix(s.trace, [ReadReg(RxFrameCntThres)] + RxTrace(lens, |lens|));
    assert s.trace + [ReadReg(RxFrameCntThres)] + RxTrace(lens, |lens|)
      == s.trace + ([ReadReg(RxFrameCntThres)] + RxTrace(lens, |lens|));
  }

  lemma {:induction false} TransmitInv(s: Eth, buf: seq<Byte>, len: U16)
    requires Inv(s)
    ensures Inv(Transmit(s, buf, len))
  {
    LastEventQuietSuffix(s.trace, TxTrace(s.linkStatus, buf, len));
  }

  lemma {:induction false} PollLockupInv(s: Eth, pins: seq<bool>)
    requires Inv(s) && |pins| > MAX_TIMEOUT
    ensures Inv(PollLockup(s, pins))
    ensures LockedUp(pins) ==> PollLockup(s, pins).queue == [] && !PollLockup(s, pins).linkStatus
  {
    LastEventQuietSuffix(s.trace, PollDelays(LowPolls(pins, MAX_TIMEOUT)));
    LowPollsReachesLimit(pins, MAX_TIMEOUT);
  }

  /** Taking the front command off the queue keeps the invariant. */
  lemma DequeueInv(s: Eth)
    requires Inv(s) && s.queue != []
    ensures Inv(s.(queue := s.queue[1..]))
    ensures |s.queue[1..]| < QUEUE_SIZE
  {
  }

  /** Every handler of a dispatched command keeps the invariant. */
  lemma {:induction false} DispatchInv(s: Eth, cmd: Command, env: ChipReads)
    requires Inv(s) && s.phase == Running && ReadsFit(env)
    ensures Inv(Dispatch(s, cmd, env))
  {
    match cmd
    case Tx(buf, len) => TransmitInv(s, buf, len);
    case HwInt(_) => ClassifyInv(s, env.intStatus);
    case Rx(_) => ReceiveFramesInv(s, env.rxFrameReg, env.frameLens);
    case ChkLink(_) =>
      assert CheckLink(s, env.linkUp).trace == s.trace + [GetLinkStatus] + [Emit(if env.linkUp then EthConnected else EthDisconnected)];
    case Overrun(_) =>
    case Other(_) =>
  }

  /** Every iteration of the worker loop keeps the invariant. */
  lemma {:induction false} StepInv(s: Eth, env: ChipReads)
    requires Inv(s) && s.phase == Running && ReadsFit(env)
    ensures Inv(Step(s, env))
  {
    if s.started && s.queue == [] {
      PollLockupInv(s, env.pins);
    } else if s.started {
      DispatchInv(s.(queue := s.queue[1..]), s.queue[0], env);
    }
  }

  lemma IsrPushInv(s: Eth, isr: bv16)
    requires Inv(s)
    ensures Inv(IsrPush(s, isr))
  {
  }

  lemma EnqueueTxInv(s: Eth, buf: seq<Byte>, len: U16)
    requires Inv(s) && |s.queue| < QUEUE_SIZE
    ensures Inv(EnqueueTx(s, buf, len))
  {
  }

  lemma BootTaskInv(s: Eth, readMac: Option<seq<Byte>>, defaults: seq<Byte>)
    requires Inv(s) && s.phase == Boot
    requires |defaults| == MAC_SIZE
    requires readMac.Some? ==> |readMac.value| == MAC_SIZE
    ensures Inv(BootTask(s, readMac, defaults))
  {
  }

  lemma StartInv(s: Eth)
    requires Inv(s) && s.phase == WaitingForStart
    ensures Inv(Start(s))
    ensures !Start(s).linkStatus && LastEvent(Start(s).trace) == Some(EthStart)
  {
  }

  lemma InitInv(s: Eth, allocOk: bool)
    requires Inv(s)
    ensures Inv(Init(s, allocOk).0)
  {
  }

  lemma {:induction false} HandleEventInv(s: Eth, ev: SysEvent)
    requires Inv(s)
    ensures Inv(HandleEvent(s, ev))
  {
    LastEventQuietSuffix(s.trace, [DeregisterNic]);
    LastEventQuietSuffix(s.trace, [RegisterNic]);
  }
}
