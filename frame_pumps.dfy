/**
 * The receive and transmit pumps, process_rx and process_tx
 * (esp32/mods/modeth.c): the calls they make, as sequences of effects, and
 * what those sequences deliver to the network stack.
 */
module FramePumps {
  import opened EthTypes

  const U32_MODULUS: nat := 0x1_0000_0000

  /** frameCnt of process_rx: the pending-frame field of the receive-frame-count register. */
  function FrameCount(reg: bv16): (n: nat)
    ensures n < 256
  {
    ((reg & RX_FRAME_CNT_MASK) >> 8) as nat
  }

  /** Calls made for one frame retrieved while `remaining` frames are still counted. */
  function RxFrame(remaining: nat, len: U32): seq<Effect> {
    [RetrievePacket(remaining)] + (if len != 0 then [EthInput(len)] else [])
  }

  /** Calls made by the drain loop for frames of lengths `lens`, starting with `remaining` counted. */
  function RxTrace(lens: seq<U32>, remaining: nat): seq<Effect>
    requires |lens| <= remaining
    decreases |lens|
  {
    if lens == [] then [] else RxFrame(remaining, lens[0]) + RxTrace(lens[1..], remaining - 1)
  }

  function Sum(lens: seq<U32>): nat
    decreases |lens|
  {
    if lens == [] then 0 else lens[0] + Sum(lens[1..])
  }

  /** totalLen as process_rx returns it: a uint32_t accumulator. */
  function RxTotal(lens: seq<U32>): U32 {
    Sum(lens) % U32_MODULUS
  }

  /** The non-empty frame lengths, in order. */
  function NonZero(lens: seq<U32>): seq<U32>
    decreases |lens|
  {
    if lens == [] then []
    else (if lens[0] != 0 then [lens[0]] else []) + NonZero(lens[1..])
  }

  /** Lengths handed to tcpip_adapter_eth_input, in call order. */
  function EthInputs(t: seq<Effect>): seq<U32>
    decreases |t|
  {
    if t == [] then []
    else (if t[0].EthInput? then [t[0].frameLen] else []) + EthInputs(t[1..])
  }

  /** The remaining-count arguments of the frame-retrieval calls, in call order. */
  function Retrievals(t: seq<Effect>): seq<nat>
    decreases |t|
  {
    if t == [] then []
    else (if t[0].RetrievePacket? then [t[0].remaining] else []) + Retrievals(t[1..])
  }

  /** n, n - 1, ..., n - k + 1. */
  function Countdown(n: nat, k: nat): seq<nat>
    requires k <= n
    decreases k
  {
    if k == 0 then [] else [n] + Countdown(n - 1, k - 1)
  }

  /**
   * The drain loop of process_rx: `frameCnt` frames are retrieved, counting
   * down, and the non-empty ones handed to the stack and summed into a
   * uint32_t total.
   */
  method DrainFrames(frameCnt: nat, lens: seq<U32>) returns (calls: seq<Effect>, totalLen: U32)
    requires |lens| == frameCnt
    ensures calls == RxTrace(lens, |lens|)
    ensures totalLen == RxTotal(lens)
  {
    var left := frameCnt;
    ghost var seen: seq<U32> := [];
    calls := [];
    totalLen := 0;
    while left > 0
      invariant 0 <= left <= frameCnt
      invariant |seen| == frameCnt - left && seen == lens[..|seen|]
      invariant totalLen == RxTotal(seen)
      invariant calls == RxTrace(seen, frameCnt)
    {
      var len := lens[frameCnt - left];
      ghost var before := calls;
      calls := calls + [RetrievePacket(left)];
      if len != 0 {
        totalLen := (totalLen + len) % U32_MODULUS;
        calls := calls + [EthInput(len)];
      }
      assert calls == before + RxFrame(left, len);
      RxTraceSnoc(seen, len, frameCnt);
      RxTotalSnoc(seen, len);
      seen := seen + [len];
      left := left - 1;
    }
    assert seen == lens;
  }

  /** process_tx: the three-step transfer when the link is up, nothing otherwise. */
  function TxTrace(linkUp: bool, buf: seq<Byte>, len: U16): seq<Effect> {
    if linkUp then [BeginPacketSend(len), SendPacketData(buf, len), EndPacketSend] else []
  }

  /** One more frame extends the drain's calls at the end. */
  lemma {:induction false} RxTraceSnoc(lens: seq<U32>, len: U32, remaining: nat)
    requires |lens| + 1 <= remaining
    ensures RxTrace(lens + [len], remaining) == RxTrace(lens, remaining) + RxFrame(remaining - |lens|, len)
    decreases |lens|
  {
    if lens != [] {
      assert (lens + [len])[1..] == lens[1..] + [len];
      RxTraceSnoc(lens[1..], len, remaining - 1);
    }
  }

  lemma {:induction false} SumSnoc(lens: seq<U32>, len: U32)
    ensures Sum(lens + [len]) == Sum(lens) + len
    decreases |lens|
  {
    if lens != [] {
      assert (lens + [len])[1..] == lens[1..] + [len];
      SumSnoc(lens[1..], len);
    }
  }

  /** The uint32_t accumulator of process_rx stays the wrapped sum of the lengths seen so far. */
  lemma RxTotalSnoc(lens: seq<U32>, len: U32)
    ensures RxTotal(lens + [len]) == (RxTotal(lens) + len) % U32_MODULUS
  {
    SumSnoc(lens, len);
  }

  lemma {:induction false} EthInputsAppend(t: seq<Effect>, u: seq<Effect>)
    ensures EthInputs(t + u) == EthInputs(t) + EthInputs(u)
    decreases |t|
  {
    if t == [] {
      assert t + u == u;
    } else {
      var head := if t[0].EthInput? then [t[0].frameLen] else [];
      assert (t + u)[0] == t[0] && (t + u)[1..] == t[1..] + u;
      assert EthInputs(t + u) == head + EthInputs(t[1..] + u);
      EthInputsAppend(t[1..], u);
      assert head + (EthInputs(t[1..]) + EthInputs(u)) == (head + EthInputs(t[1..])) + EthInputs(u);
    }
  }

  lemma {:induction false} RetrievalsAppend(t: seq<Effect>, u: seq<Effect>)
    ensures Retrievals(t + u) == Retrievals(t) + Retrievals(u)
    decreases |t|
  {
    if t == [] {
      assert t + u == u;
    } else {
      var head := if t[0].RetrievePacket? then [t[0].remaining] else [];
      assert (t + u)[0] == t[0] && (t + u)[1..] == t[1..] + u;
      assert Retrievals(t + u) == head + Retrievals(t[1..] + u);
      RetrievalsAppend(t[1..], u);
      assert head + (Retrievals(t[1..]) + Retrievals(u)) == (head + Retrievals(t[1..])) + Retrievals(u);
    }
  }

  /** RX drain: the network stack receives exactly the non-empty frames, in order; empty ones are skipped. */
  lemma {:induction false} RxDeliversNonZeroFrames(lens: seq<U32>, remaining: nat)
    requires |lens| <= remaining
    ensures EthInputs(RxTrace(lens, remaining)) == NonZero(lens)
    decreases |lens|
  {
    if lens != [] {
      var head := RxFrame(remaining, lens[0]);
      EthInputsAppend(head, RxTrace(lens[1..], remaining - 1));
      RxDeliversNonZeroFrames(lens[1..], remaining - 1);
      assert EthInputs(head) == (if lens[0] != 0 then [lens[0]] else []) by {
        assert head[1..] == (if lens[0] != 0 then [EthInput(lens[0])] else []);
      }
    }
  }

  /** RX drain: one retrieval per counted frame, whatever the lengths, with the count going down by one each time. */
  lemma {:induction false} RxRetrievesEveryFrame(lens: seq<U32>, remaining: nat)
    requires |lens| <= remaining
    ensures Retrievals(RxTrace(lens, remaining)) == Countdown(remaining, |lens|)
    decreases |lens|
  {
    if lens != [] {
      var head := RxFrame(remaining, lens[0]);
      RetrievalsAppend(head, RxTrace(lens[1..], remaining - 1));
      RxRetrievesEveryFrame(lens[1..], remaining - 1);
      assert Retrievals(head) == [remaining] by {
        assert head[1..] == (if lens[0] != 0 then [EthInput(lens[0])] else []);
      }
    }
  }

  /** Empty frames add nothing: the total is the sum of the delivered frames. */
  lemma {:induction false} SumNonZero(lens: seq<U32>)
    ensures Sum(NonZero(lens)) == Sum(lens)
    decreases |lens|
  {
    if lens != [] {
      SumNonZero(lens[1..]);
      SumAppend(if lens[0] != 0 then [lens[0]] else [], NonZero(lens[1..]));
    }
  }

  lemma {:induction false} SumAppend(s: seq<U32>, t: seq<U32>)
    ensures Sum(s + t) == Sum(s) + Sum(t)
    decreases |s|
  {
    if s == [] {
      assert s + t == t;
    } else {
      assert (s + t)[1..] == s[1..] + t;
      SumAppend(s[1..], t);
    }
  }

  /** A count register of 0x0100 with one 128-byte frame: one retrieval and one 128-byte delivery. */
  lemma OneFrameOf128()
    ensures FrameCount(0x0100) == 1
    ensures RxTrace([128], 1) == [RetrievePacket(1), EthInput(128)]
    ensures RxTotal([128]) == 128
  {
  }
}
