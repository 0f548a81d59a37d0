# KSZ8851 Ethernet driver core: a Dafny model

This project models the command-processing core of the Pycom MicroPython
Ethernet driver for the KSZ8851 SPI controller, `esp32/mods/modeth.c`.
Work reaches one worker task, TASK_ETHERNET, through one command queue,
`eth_cmdQueue`, which holds up to 100 records. Three producers feed it:

- the chip's interrupt callback front-pushes HW_INT from interrupt
  context;
- the worker's own interrupt classifier, `processInterrupt`, front-pushes
  RX, OVERRUN and CHK_LINK, or back-pushes OTHER;
- the network stack back-pushes TX.

The worker does three things:

- it dispatches each command: receive drain, transmit, link check,
  overrun recovery, strange-interrupt counters;
- on a receive timeout, it polls the interrupt pin to detect a lockup;
- when ETHERNET_EVT_STARTED is cleared, it stops and waits to be started
  again.

The model also covers the pieces around the worker:

- the choice of MAC address and the KSZ8851 fifth-byte erratum fix-up;
- the start-once guard of `eth_init_helper`;
- the bits the event handler updates;
- hostname validation;
- the started-gating of the raw register command;
- the link-speed query.

Layout:

- `eth_types.dfy`: the command record as a tagged datatype, the chip and
  network-stack calls as `Effect`s, the register bits and sizes, and
  uint16_t wrap-around (`Inc16`).
- `classifier.dfy`: `processInterrupt`'s pushes, as a loop-free method
  proved against the function `ClassifyQueue`, with the expansion and
  fallback properties.
- `frame_pumps.dfy`: the drain loop of `process_rx`, as a method proved
  against `RxTrace`/`RxTotal`, what the drain delivers, and the
  `process_tx` gate.
- `lockup.dfy`: the bounded interrupt-pin poll, as a method proved
  against `LowPolls`.
- `mac_address.dfy`: MAC selection and the erratum fix-up.
- `guards.dfy`: `eth_validate_hostname`, `modeth_ksz8851_reg_wr` gating
  and `get_eth_link_speed`.
- `worker.dfy`: the driver state as a value (`Eth`) and every transition
  as a function: one loop iteration (`Step`), the interrupt bridge, the
  TX push, boot, start, init and the event handler. It also holds the
  driver invariant and the proofs that every transition preserves it.
- `worker_properties.dfy`: what one iteration does for each kind of
  dequeued command, for a receive timeout and for a stop request, and
  how iterations combine.
- `driver.dfy`: the class `EthernetDriver`, whose fields mirror the C
  globals. Its methods update them in place and are proved to perform
  the transitions of `worker.dfy`.

The chip, the interrupt pin and the network stack are represented in
two ways:

- what the driver reads from them becomes a parameter (`ChipReads`: the
  interrupt status snapshot, the frame-count register, the frame lengths,
  the link bit and the successive pin reads);
- what the driver does to them is appended to a `trace` of `Effect`s,
  in call order.

Constants come from headers that are not part of this model
(`ksz8851.h`, `ksz8851conf.h`, the ESP-IDF TCP/IP adapter). They are
fixed at the values those headers define:

| constant | value |
|---|---|
| INT_PHY | 0x8000 |
| INT_RX | 0x2000 |
| INT_RX_OVERRUN | 0x0800 |
| RX frame-count field mask | 0xFF00 (shifted right by 8) |
| 100 Mbit/s bit of the port status register | 0x0400 |
| TCPIP_HOSTNAME_MAX_SIZE | 32 |

Where the code and its description differ, the model follows the code:

- The OVERRUN case never increments `num_resets_overflow`. The counter is
  declared but never written (`esp32/mods/modeth.c:547-556`).
  `WorkerProperties.OverrunDispatch` states that no counter moves.
- A status snapshot of 0x2008 has only INT_RX among the three known bits
  (0x0008 is not one of them). It therefore yields a single RX command
  (`Classifier.RxWithWakeOnLinkUp`).
- A snapshot with RX and OVERRUN set yields OVERRUN ahead of RX at the
  front. The recovery then empties the queue, so the RX pushed with it is
  never dispatched (`WorkerProperties.OverrunDiscardsQueuedRx`).

## Model

| member | source | states |
|---|---|---|
| EthTypes.Inc16 | esp32/mods/modeth.c:100-103 | The diagnostic counters are uint16_t: an increment adds one below 0xFFFF and wraps to 0 at 0xFFFF. |
| Classifier.ClassifySnapshot | esp32/mods/modeth.c:282-334 | processInterrupt's pushes on the queue: RX, OVERRUN and CHK_LINK are front-pushed for each set bit, in that order. With none set, OTHER is back-pushed. A push into a full queue blocks the worker with the pushes made so far. The result equals `ClassifyQueue`. |
| Classifier.PushFrontOne | esp32/mods/modeth.c:282-317 | One blocking front push: into a full queue it blocks, otherwise the command goes to the front and the remaining pushes follow. |
| Classifier.PushFrontAllWithRoom | esp32/mods/modeth.c:282-317 | When every push fits, successive front pushes leave the commands in reverse order ahead of the old queue. |
| Classifier.PushFrontAllWithoutRoom | esp32/mods/modeth.c:282-317 | When they do not all fit, exactly the pushes that fit are made, in reverse order at the front, and the worker blocks. |
| Classifier.ReverseMatched | esp32/mods/modeth.c:282-317 | Pushing RX, OVERRUN, CHK_LINK to the front leaves CHK_LINK, then OVERRUN, then RX at the front. |
| Classifier.MatchedSize | esp32/mods/modeth.c:282-323 | One command per set known bit, at most three. No command is pushed to the front iff none of INT_RX, INT_RX_OVERRUN and INT_PHY is set. |
| Classifier.ClassifierExpansion | esp32/mods/modeth.c:282-317 | With a known bit set and room in the queue, the new queue is [CHK_LINK?, OVERRUN?, RX?] followed by the old queue. |
| Classifier.ClassifierFallback | esp32/mods/modeth.c:323-334 | With no known bit set and room in the queue, one OTHER carrying the snapshot is appended at the back and nothing else changes. |
| Classifier.ClassifierGrowth | esp32/mods/modeth.c:282-334 | The queue grows by the number of set known bits, or by one when there are none. The worker blocks iff that growth does not fit in 100 entries. The queue never exceeds 100 entries. |
| Classifier.FrontCarriesSnapshot | esp32/mods/modeth.c:282-317 | Each of RX, OVERRUN and CHK_LINK is at the new front iff its bit is set. Every front command carries the same snapshot and none is TX. |
| Classifier.RxAndOverrunTogether | esp32/mods/modeth.c:282-300 | Snapshot 0x2808 yields two commands, with OVERRUN ahead of RX at the front. |
| Classifier.RxWithWakeOnLinkUp | esp32/mods/modeth.c:282-290 | Snapshot 0x2008 yields one RX command. |
| Classifier.ClassifierCanBlock | esp32/mods/modeth.c:282-300 | With 99 pending entries, snapshot 0x2800 front-pushes RX and then blocks on the OVERRUN push. |
| FramePumps.FrameCount | esp32/mods/modeth.c:219 | The frame count is the upper byte of the frame-count register, so it is below 256. |
| FramePumps.DrainFrames | esp32/mods/modeth.c:219-248 | The drain loop of process_rx retrieves one frame per counted frame, counting down. It hands every non-empty frame to the stack and sums the lengths into a uint32_t. Its calls equal `RxTrace` and its total equals `RxTotal`. |
| FramePumps.RxTraceSnoc | esp32/mods/modeth.c:219-248 | One more loop iteration extends the drain's calls at the end with that frame's retrieval and, if the frame is non-empty, its delivery. |
| FramePumps.SumSnoc | esp32/mods/modeth.c:237 | The length sum grows by the added frame's length. |
| FramePumps.RxTotalSnoc | esp32/mods/modeth.c:237 | The uint32_t accumulator stays the sum of the lengths seen so far, modulo 2^32. |
| FramePumps.EthInputsAppend | esp32/mods/modeth.c:233-238 | The deliveries of two consecutive call sequences are the first's deliveries followed by the second's. |
| FramePumps.RetrievalsAppend | esp32/mods/modeth.c:224-228 | The retrievals of two consecutive call sequences are the first's retrievals followed by the second's. |
| FramePumps.RxDeliversNonZeroFrames | esp32/mods/modeth.c:219-248 | The network stack receives exactly the non-empty frames, in order. Empty frames are retrieved but not delivered. |
| FramePumps.RxRetrievesEveryFrame | esp32/mods/modeth.c:219-248 | Every counted frame is retrieved, whatever its length, with the remaining count going n, n-1, ..., 1. |
| FramePumps.SumNonZero | esp32/mods/modeth.c:233-238 | Empty frames add nothing to the total: the sum over the delivered frames equals the sum over all frames. |
| FramePumps.SumAppend | esp32/mods/modeth.c:237 | The length sum of two frame runs is the sum of their sums. |
| FramePumps.OneFrameOf128 | esp32/mods/modeth.c:214-249 | A register value of 0x0100 with one 128-byte frame gives one retrieval, one 128-byte delivery and a total of 128. |
| Lockup.LowPolls | esp32/mods/modeth.c:570-577 | The poll count never exceeds the bound MAX_TIMEOUT or the number of pin reads. |
| Lockup.PollDelays | esp32/mods/modeth.c:570-577 | Each counted low read costs exactly one 10 ms delay. |
| Lockup.LowPollsLeadingLows | esp32/mods/modeth.c:570-577 | The count covers only low reads. When it stops below both bounds, the next read is high. |
| Lockup.LowPollsReachesLimit | esp32/mods/modeth.c:570-578 | The count reaches its bound iff every read up to the bound was low. |
| Lockup.PollExit | esp32/mods/modeth.c:570-577 | The loop's exit point, at the first high read or at MAX_TIMEOUT low reads, is the count `LowPolls` gives. |
| Lockup.PollInterruptPin | esp32/mods/modeth.c:565-578 | The poll loop ends with `timeout` equal to the number of leading low reads, capped at MAX_TIMEOUT, after one 10 ms delay per low read. The cap is reached iff the pin read low on all MAX_TIMEOUT polls. |
| Lockup.FirstHighReadEndsPoll | esp32/mods/modeth.c:570-577 | A high read after j low ones, with j below the bound, ends the poll with the count at j. |
| MacAddress.EthernetMac | esp32/mods/modeth.c:374-394 | The MAC has six bytes. Without a factory MAC it is the chip defaults, unchanged. With one, it is the factory MAC, except that a fifth byte of 0x06 is replaced. The replacement keeps the other five bytes, is never 0x06, has bit 0 set and includes the sixth byte's bits. |
| MacAddress.ErratumFixup | esp32/mods/modeth.c:387-392 | A fifth byte of 0x06 becomes 0x06 OR the sixth byte OR 0x01. |
| MacAddress.ErratumExample | esp32/mods/modeth.c:387-392 | The factory MAC 70:B3:D5:49:06:03 becomes 70:B3:D5:49:07:03. |
| Guards.StrLen | esp32/mods/modeth.c:607 | strlen counts the characters before the first NUL. |
| Guards.StrLenNoNul | esp32/mods/modeth.c:607 | A name without NUL characters has strlen equal to its length. |
| Guards.HostnameAcceptedAsWritten | esp32/mods/modeth.c:601-611 | eth_validate_hostname as written: NULL is rejected, and so is any name whose strlen is a multiple of 256. Every name of 1 to 32 characters is accepted. An accepted name's strlen modulo 256 is between 1 and 32, because the length is kept in a uint8_t. |
| Guards.HostnameAccepted | esp32/mods/modeth.c:607-608 | The corrected check of the hostname finding: a name is accepted iff it is present, non-empty and at most 32 characters long. |
| Guards.HostnameChecksAgreeBelow256 | esp32/mods/modeth.c:601-611 | The check as written and the intended check agree on every name shorter than 256 characters. |
| Guards.HostnameTruncationAccepts257 | esp32/mods/modeth.c:607-608 | The check as written accepts a 257-character name, whose uint8_t length is 1; the intended check rejects it. |
| Guards.RegisterAccess | esp32/mods/modeth.c:779-801 | Without ETHERNET_EVT_STARTED the call fails as "not initialized". Otherwise mode 0 reads the addressed register, and any other mode writes the given value to it when one is supplied. |
| Guards.LinkSpeed | esp32/mods/modeth.c:130-141 | The link speed is 100 Mbit/s iff the 100 Mbit/s bit of the port status register is set, and 10 Mbit/s otherwise. |
| Guards.LinkSpeedOnlyBit | esp32/mods/modeth.c:130-141 | Port-status values that agree on the 100 Mbit/s bit report the same speed. |
| Worker.RxTraceQuiet | esp32/mods/modeth.c:219-248 | The receive drain sends no system event. |
| Worker.LastEventAfterEmit | esp32/mods/modeth.c:530-546 | After an event is sent, it is the last event sent. |
| Worker.InitialInv | esp32/mods/modeth.c:100-109 | The driver starts in a state that satisfies the invariant: empty queue, link down, not started, six-byte MACs. |
| Worker.ClassifyInv | esp32/mods/modeth.c:251-336 | processInterrupt keeps the invariant, including the queue bound of 100 entries. It leaves the link flag, the started, connected and buffer flags, and the last event sent unchanged. |
| Worker.ReceiveFramesInv | esp32/mods/modeth.c:214-249 | process_rx keeps the invariant. It changes only the call log and leaves the last event sent unchanged. |
| Worker.TransmitInv | esp32/mods/modeth.c:197-213 | process_tx keeps the invariant. |
| Worker.PollLockupInv | esp32/mods/modeth.c:565-590 | The lockup poll and its recovery keep the invariant. When the pin read low on every poll, the queue ends empty and the link down. |
| Worker.DequeueInv | esp32/mods/modeth.c:488 | Taking the front command off the queue keeps the invariant and leaves room for one more entry. |
| Worker.DispatchInv | esp32/mods/modeth.c:511-564 | Every case of the switch on a dequeued command keeps the invariant. |
| Worker.StepInv | esp32/mods/modeth.c:473-590 | Each iteration of the worker loop keeps the invariant. After a stop, a dispatch, a recovery or a poll, the queue is within capacity and the buffer is held while started. The link is down outside the run loop, and up only while CONNECTED is the last event sent. |
| Worker.IsrPushInv | esp32/mods/modeth.c:340-349 | The interrupt bridge's push keeps the queue within its capacity. |
| Worker.EnqueueTxInv | esp32/mods/modeth.c:57 | A TX push made while the queue has room keeps the queue within its capacity. |
| Worker.BootTaskInv | esp32/mods/modeth.c:359-399 | The first run of the task keeps the invariant and installs six-byte MACs. |
| Worker.StartInv | esp32/mods/modeth.c:400-409 | Entering the run loop keeps the invariant. The link is still down, and START is the last event sent. |
| Worker.InitInv | esp32/mods/modeth.c:650-692 | eth_init_helper keeps the invariant: it sets started only together with a successful buffer allocation. |
| Worker.HandleEventInv | esp32/mods/modeth.c:152-188 | The event handler keeps the invariant. |
| WorkerProperties.HwIntDispatch | esp32/mods/modeth.c:519-521 | HW_INT reads and clears the status register with 0xFFFF. The snapshot's commands go ahead of the rest of the queue, or a single OTHER goes behind it. Nothing else changes. |
| WorkerProperties.RxDispatch | esp32/mods/modeth.c:522-529 | RX reads the frame-count register once. Every counted frame is retrieved, counting down, and exactly the non-empty frames reach the network stack, in order. Only the queue and the call log change. |
| WorkerProperties.TxDispatch | esp32/mods/modeth.c:513-518 | TX with the link down makes no chip call. With the link up it makes exactly begin(len), data(buf, len) and end. Only the queue and the call log change. |
| WorkerProperties.TxOnlyWhileConnected | esp32/mods/modeth.c:197-213 | A frame reaches the chip only while CONNECTED is the last event the driver sent. |
| WorkerProperties.ChkLinkDispatch | esp32/mods/modeth.c:530-546 | CHK_LINK sets the link flag to the chip's link bit and sends CONNECTED or DISCONNECTED to match. That event becomes the last event sent. |
| WorkerProperties.OverrunDispatch | esp32/mods/modeth.c:547-556 | OVERRUN empties the queue and takes the link down. It powers down, sends DISCONNECTED, waits 100 ms and reinitialises the chip. No counter moves. |
| WorkerProperties.UnmatchedDispatch | esp32/mods/modeth.c:557-562 | OTHER increments the uint16_t num_strange_isr, wrapping at 0xFFFF. num_strange_isr_zero is incremented the same way when the snapshot is 0 and is left alone otherwise. Nothing else changes. |
| WorkerProperties.TimeoutPoll | esp32/mods/modeth.c:565-590 | On a receive timeout: if the pin read low MAX_TIMEOUT times, num_resets_int_pin is incremented and the queue and link are reset, after MAX_TIMEOUT delays. Otherwise only the delays are added. |
| WorkerProperties.StopRequested | esp32/mods/modeth.c:473-486 | With ETHERNET_EVT_STARTED clear, the worker frees the receive buffer, sends DISCONNECTED and masks chip interrupts. It then resets the queue, takes the link down and returns to waiting for start. |
| WorkerProperties.RecoveryPathsAgree | esp32/mods/modeth.c:547-590 | The overrun path and the lockup path end with an empty queue, the link down and the same final four calls. Only the lockup path increments num_resets_int_pin. Neither moves num_resets_overflow. |
| WorkerProperties.OverrunDiscardsQueuedRx | esp32/mods/modeth.c:282-300 | RX and OVERRUN latched together put OVERRUN first. The next iteration's reset discards the RX queued behind it. |
| WorkerProperties.InitStartsOnce | esp32/mods/modeth.c:650-692 | eth_init_helper leaves a started driver as it is. A failed allocation leaves it unstarted, without a buffer, and returns the allocation error. A successful allocation starts it with a buffer. A second call after a start changes nothing. |
| WorkerProperties.IsrPushFrontOrDrop | esp32/mods/modeth.c:340-349 | The interrupt bridge drops HW_INT when the queue is full. Otherwise it puts HW_INT at the front and leaves the rest of the state alone. |
| WorkerProperties.StopEventStopsWorker | esp32/mods/modeth.c:152-188 | GOT_IP sets CONNECTED and DISCONNECTED clears it. After ETH_STOP, the next loop iteration takes the stop branch whatever is queued. |
| Driver.EthernetDriver.constructor | esp32/mods/modeth.c:100-109 | The driver object starts in the initial state, which satisfies the invariant. |
| Driver.EthernetDriver.IsLinkUp | esp32/mods/modeth.c:143-146 | is_eth_link_up returns the link flag, which is set only while CONNECTED is the last event sent. |
| Driver.EthernetDriver.GetMac | esp32/mods/modeth.c:125-128 | modeth_get_mac returns the six-byte ethernet_mac. |
| Driver.EthernetDriver.EvtCallback | esp32/mods/modeth.c:340-349 | The interrupt bridge updates the object's queue as `IsrPush` does and keeps the invariant. |
| Driver.EthernetDriver.QueueTx | esp32/mods/modeth.c:57 | A TX push appends the record at the back of the queue, as `EnqueueTx` does, and keeps the invariant. |
| Driver.EthernetDriver.ProcessInterrupt | esp32/mods/modeth.c:251-336 | Updates the queue, the phase and the call log in place as `Classify` does. |
| Driver.EthernetDriver.ProcessRx | esp32/mods/modeth.c:214-249 | Appends the calls of `ReceiveFrames` to the log and returns the uint32_t total `RxTotal`. |
| Driver.EthernetDriver.ProcessTx | esp32/mods/modeth.c:197-213 | Appends the calls of `Transmit` to the log. |
| Driver.EthernetDriver.ResetChip | esp32/mods/modeth.c:550-555 | The recovery empties the queue, clears the link flag and appends power-down, DISCONNECTED, a 100 ms delay and init. |
| Driver.EthernetDriver.LockupPoll | esp32/mods/modeth.c:565-590 | The receive-timeout branch changes the object as `PollLockup` does. |
| Driver.EthernetDriver.DispatchCommand | esp32/mods/modeth.c:511-564 | The switch on a dequeued command changes the object as `Dispatch` does and keeps the invariant. |
| Driver.EthernetDriver.CheckLink | esp32/mods/modeth.c:530-546 | CHK_LINK changes the object as `CheckLink` does. |
| Driver.EthernetDriver.CountStrange | esp32/mods/modeth.c:557-562 | The default case changes the counters as `Unmatched` does. |
| Driver.EthernetDriver.RunOnce | esp32/mods/modeth.c:473-590 | One loop iteration changes the object as `Step` does and keeps the invariant. |
| Driver.EthernetDriver.Boot | esp32/mods/modeth.c:359-399 | The task's first run sets both MAC copies as `BootTask` does and keeps the invariant. |
| Driver.EthernetDriver.Start | esp32/mods/modeth.c:400-409 | Entering the run loop changes the object as `Start` does and keeps the invariant. |
| Driver.EthernetDriver.InitHelper | esp32/mods/modeth.c:650-692 | eth_init_helper's start guard and allocation path change the object and return the result as `Init` does, and keep the invariant. |
| Driver.EthernetDriver.EventHandler | esp32/mods/modeth.c:152-188 | modeth_event_handler changes the object as `HandleEvent` does and keeps the invariant. |

## Left out

- FreeRTOS mechanics are not modelled: task notifications, event-group
  waits, blocking and the 200 ms receive timeout. A receive timeout is an
  empty queue at the top of the loop. A worker push into a full queue
  never returns, which is the `Stalled` phase.
- The ISR's front push and the network stack's TX push can interleave
  with the worker's own pushes inside one iteration. The model treats
  each iteration as atomic.
- `eth_init_helper` and `modeth_event_handler` are treated as atomic with
  respect to a loop iteration, though in the C code they run in other
  tasks. A re-init between the STARTED test at line 473 and the
  `heap_caps_free` at line 478 would allocate a new buffer and set
  STARTED. The stop branch would then free that new buffer and re-enter
  the run loop with STARTED set. The invariant "started implies the buffer
  is held", and with it `Worker.StepInv`, does not cover that interleaving.
- Update in place: `ClassifySnapshot` and `DrainFrames` work on values,
  not on a shared queue object or log. The class then assigns their
  results to its fields.
- The TX producer, `ksz8851_send`, is not part of this model: it is
  outside `esp32/mods/modeth.c`. `QueueTx` / `EnqueueTx` stand for its
  back push once there is room.
- Chip SPI primitives (`ksz8851Init`, power-down, frame retrieval and
  send, register access) appear only as recorded effects. What they
  return is a parameter.
- `ksz8851.h`, `ksz8851conf.h` and the KSZ8851_MAC0..5 defaults are not
  part of this model. The register bits are fixed at the values above.
  The defaults are a parameter of `Boot`.
- The thread-notification guard of TASK_ETHERNET's first wait is not
  modelled: the task is assumed to have been notified.
- Diagnostics (`MSG`, `printf` and the counters dump at 420-442) are not
  modelled.
- The event handler's IP info query and DNS save (`tcpip_adapter_get_ip_info`,
  `tcpip_adapter_get_dns_info`) are not modelled. Its NIC register and
  deregister calls appear as effects.
- The MicroPython bindings are not modelled: `ifconfig`, `hostname`,
  `mac`, `isconnected`, `deinit`, `eth_pre_init`, task creation, and the
  hostname branch of `eth_init_helper` (its tcpip_adapter call). The
  hostname check itself is modelled in `Guards`.
- Guards.StrLen: strings are sequences of characters. A C string that is
  not NUL-terminated within its buffer is read to the end of the
  sequence.
- Driver.EthernetDriver.EvtCallback: the record's snapshot is
  uninitialised in the C code. Here it is a parameter, `uninitIsr`.

## Findings

| source | as written | input that shows it | evidently intended | confidence | as-written member | corrected member |
|---|---|---|---|---|---|---|
| esp32/mods/modeth.c:607-608 | `eth_validate_hostname` stores `strlen(hostname)` in a `uint8_t`, so the length is checked modulo 256 | a hostname of 257 characters, whose stored length is 1 | reject any name longer than TCPIP_HOSTNAME_MAX_SIZE (32) | not executed | Guards.HostnameAcceptedAsWritten, Guards.HostnameTruncationAccepts257 | Guards.HostnameAccepted |
