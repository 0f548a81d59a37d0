/**
 * The interrupt classifier, processInterrupt (esp32/mods/modeth.c): the
 * status snapshot is expanded into RX, OVERRUN and CHK_LINK commands pushed
 * to the front of the queue, or into one OTHER command pushed to the back
 * when no known bit is set.
 */
module Classifier {
  import opened EthTypes

  /** The commands processInterrupt front-pushes for a snapshot, in the order it pushes them. */
  function Matched(isr: bv16): seq<Command> {
    (if isr & INT_RX != 0 then [Rx(isr)] else [])
    + (if isr & INT_RX_OVERRUN != 0 then [Overrun(isr)] else [])
    + (if isr & INT_PHY != 0 then [ChkLink(isr)] else [])
  }

  /** Reference description of the queue's new front: CHK_LINK?, then OVERRUN?, then RX?. */
  function FrontAfter(isr: bv16): seq<Command> {
    (if isr & INT_PHY != 0 then [ChkLink(isr)] else [])
    + (if isr & INT_RX_OVERRUN != 0 then [Overrun(isr)] else [])
    + (if isr & INT_RX != 0 then [Rx(isr)] else [])
  }

  /** Number of the three known interrupt bits set in a snapshot. */
  function KnownBits(isr: bv16): nat {
    (if isr & INT_RX != 0 then 1 else 0)
    + (if isr & INT_RX_OVERRUN != 0 then 1 else 0)
    + (if isr & INT_PHY != 0 then 1 else 0)
  }

  function Reverse<T>(s: seq<T>): (r: seq<T>)
    ensures |r| == |s|
  {
    if s == [] then [] else Reverse(s[1..]) + [s[0]]
  }

  /** Outcome of pushes made by the worker: either all done, or the worker blocked on a full queue. */
  datatype Push = Done(queue: seq<Command>) | Blocked(queue: seq<Command>)

  /**
   * Successive xQueueSendToFront calls with portMAX_DELAY. The worker is the
   * queue's only consumer, so a push into a full queue never returns.
   */
  function PushFrontAll(q: seq<Command>, cmds: seq<Command>): Push
    decreases |cmds|
  {
    if cmds == [] then Done(q)
    else if |q| >= QUEUE_SIZE then Blocked(q)
    else PushFrontAll([cmds[0]] + q, cmds[1..])
  }

  /** The queue after processInterrupt has classified snapshot `isr`. */
  function ClassifyQueue(q: seq<Command>, isr: bv16): Push {
    var m := Matched(isr);
    match PushFrontAll(q, m)
    case Blocked(q') => Blocked(q')
    case Done(q') =>
      if m != [] then Done(q')
      else if |q'| < QUEUE_SIZE then Done(q' + [Other(isr)])
      else Blocked(q')
  }

  /** One front push: into a full queue it blocks, otherwise the rest follow behind it. */
  lemma PushFrontOne(q: seq<Command>, c: Command, cmds: seq<Command>)
    ensures PushFrontAll(q, [c] + cmds) == if |q| >= QUEUE_SIZE then Blocked(q) else PushFrontAll([c] + q, cmds)
  {
    assert ([c] + cmds)[1..] == cmds;
  }

  /**
   * The pushes of processInterrupt, made on the queue's contents: each known
   * bit front-pushes its command, and a snapshot with none back-pushes OTHER.
   * A push into a full queue blocks the worker, and nothing after it runs.
   */
  method ClassifySnapshot(q: seq<Command>, isr: bv16) returns (r: Push)
    ensures r == ClassifyQueue(q, isr)
  {
    ghost var afterOverrun := if isr & INT_PHY != 0 then [ChkLink(isr)] else [];
    ghost var afterRx := (if isr & INT_RX_OVERRUN != 0 then [Overrun(isr)] else []) + afterOverrun;
    assert Matched(isr) == if isr & INT_RX != 0 then [Rx(isr)] + afterRx else afterRx;
    var queue := q;
    var processed := 0;
    if isr & INT_RX != 0 {
      PushFrontOne(queue, Rx(isr), afterRx);
      if |queue| >= QUEUE_SIZE {
        return Blocked(queue);
      }
      queue := [Rx(isr)] + queue;
      processed := processed + 1;
    }
    assert PushFrontAll(q, Matched(isr)) == PushFrontAll(queue, afterRx);
    if isr & INT_RX_OVERRUN != 0 {
      PushFrontOne(queue, Overrun(isr), afterOverrun);
      if |queue| >= QUEUE_SIZE {
        return Blocked(queue);
      }
      queue := [Overrun(isr)] + queue;
      processed := processed + 1;
    }
    assert PushFrontAll(q, Matched(isr)) == PushFrontAll(queue, afterOverrun);
    if isr & INT_PHY != 0 {
      PushFrontOne(queue, ChkLink(isr), []);
      if |queue| >= QUEUE_SIZE {
        return Blocked(queue);
      }
      queue := [ChkLink(isr)] + queue;
      processed := processed + 1;
    }
    assert PushFrontAll(q, Matched(isr)) == Done(queue);
    if processed == 0 {
      // xQueueSend: the fallback goes to the back
      if |queue| >= QUEUE_SIZE {
        return Blocked(queue);
      }
      queue := queue + [Other(isr)];
    }
    return Done(queue);
  }

  /** With room for every command, front-pushing them one by one puts them in reverse order ahead of the old queue. */
  lemma {:induction false} PushFrontAllWithRoom(q: seq<Command>, cmds: seq<Command>)
    requires |q| + |cmds| <= QUEUE_SIZE
    ensures PushFrontAll(q, cmds) == Done(Reverse(cmds) + q)
    decreases |cmds|
  {
    if cmds != [] {
      PushFrontAllWithRoom([cmds[0]] + q, cmds[1..]);
      assert Reverse(cmds[1..]) + ([cmds[0]] + q) == Reverse(cmds) + q;
    }
  }

  /** Without room, the pushes that fit are made and then the worker blocks. */
  lemma {:induction false} PushFrontAllWithoutRoom(q: seq<Command>, cmds: seq<Command>)
    requires |q| <= QUEUE_SIZE < |q| + |cmds|
    ensures PushFrontAll(q, cmds) == Blocked(Reverse(cmds[..QUEUE_SIZE - |q|]) + q)
    decreases |cmds|
  {
    if |q| == QUEUE_SIZE {
      assert cmds[..0] == [];
    } else {
      PushFrontAllWithoutRoom([cmds[0]] + q, cmds[1..]);
      var k := QUEUE_SIZE - |q|;
      assert cmds[1..][..k - 1] == cmds[..k][1..];
      assert cmds[..k][0] == cmds[0];
      assert Reverse(cmds[..k][1..]) + ([cmds[0]] + q) == Reverse(cmds[..k]) + q;
    }
  }

  /** Issuing RX, OVERRUN, CHK_LINK to the front leaves CHK_LINK, OVERRUN, RX at the front. */
  lemma ReverseMatched(isr: bv16)
    ensures Reverse(Matched(isr)) == FrontAfter(isr)
  {
    var a := if isr & INT_RX != 0 then [Rx(isr)] else [];
    var b := if isr & INT_RX_OVERRUN != 0 then [Overrun(isr)] else [];
    var c := if isr & INT_PHY != 0 then [ChkLink(isr)] else [];
    ReverseAppend(a + b, c);
    ReverseAppend(a, b);
    assert Matched(isr) == (a + b) + c;
  }

  lemma {:induction false} ReverseAppend<T>(s: seq<T>, t: seq<T>)
    ensures Reverse(s + t) == Reverse(t) + Reverse(s)
  {
    if s == [] {
      assert s + t == t;
    } else {
      ReverseAppend(s[1..], t);
      assert (s + t)[1..] == s[1..] + t;
    }
  }

  /** One matched command per set known bit. */
  lemma MatchedSize(isr: bv16)
    ensures |Matched(isr)| == |FrontAfter(isr)| == KnownBits(isr) <= 3
    ensures Matched(isr) == [] <==> isr & (INT_RX | INT_RX_OVERRUN | INT_PHY) == 0
  {
  }

  /**
   * Classifier expansion: with room, the new queue is
   * [CHK_LINK?, OVERRUN?, RX?] ++ old queue, each carrying the snapshot.
   */
  lemma ClassifierExpansion(q: seq<Command>, isr: bv16)
    requires KnownBits(isr) > 0
    requires |q| + KnownBits(isr) <= QUEUE_SIZE
    ensures ClassifyQueue(q, isr) == Done(FrontAfter(isr) + q)
  {
    MatchedSize(isr);
    PushFrontAllWithRoom(q, Matched(isr));
    ReverseMatched(isr);
  }

  /** Classifier fallback: no known bit set, so one OTHER is appended at the back. */
  lemma ClassifierFallback(q: seq<Command>, isr: bv16)
    requires KnownBits(isr) == 0
    requires |q| < QUEUE_SIZE
    ensures ClassifyQueue(q, isr) == Done(q + [Other(isr)])
  {
    MatchedSize(isr);
  }

  /**
   * The queue grows by the number of matched bits, or by one when none
   * matched; the worker blocks exactly when that growth does not fit.
   */
  lemma ClassifierGrowth(q: seq<Command>, isr: bv16)
    requires |q| <= QUEUE_SIZE
    ensures var grow := if KnownBits(isr) == 0 then 1 else KnownBits(isr);
      && (ClassifyQueue(q, isr).Done? <==> |q| + grow <= QUEUE_SIZE)
      && (ClassifyQueue(q, isr).Done? ==> |ClassifyQueue(q, isr).queue| == |q| + grow)
      && |ClassifyQueue(q, isr).queue| <= QUEUE_SIZE
  {
    MatchedSize(isr);
    if |q| + |Matched(isr)| <= QUEUE_SIZE {
      PushFrontAllWithRoom(q, Matched(isr));
    } else {
      PushFrontAllWithoutRoom(q, Matched(isr));
    }
  }

  /** Each command at the new front is of the kind of one set bit and carries the same snapshot. */
  lemma FrontCarriesSnapshot(isr: bv16)
    ensures Rx(isr) in FrontAfter(isr) <==> isr & INT_RX != 0
    ensures Overrun(isr) in FrontAfter(isr) <==> isr & INT_RX_OVERRUN != 0
    ensures ChkLink(isr) in FrontAfter(isr) <==> isr & INT_PHY != 0
    ensures forall c | c in FrontAfter(isr) :: !c.Tx? && c.isr == isr
  {
  }

  /** Snapshot 0x2808 (RX, OVERRUN and the wake-on-link-up bit): two commands, OVERRUN ahead of RX. */
  lemma RxAndOverrunTogether(q: seq<Command>)
    requires |q| + 2 <= QUEUE_SIZE
    ensures Matched(0x2808) == [Rx(0x2808), Overrun(0x2808)]
    ensures ClassifyQueue(q, 0x2808) == Done([Overrun(0x2808), Rx(0x2808)] + q)
  {
    ClassifierExpansion(q, 0x2808);
  }

  /** Snapshot 0x2008: only INT_RX among the known bits, so one RX command. */
  lemma RxWithWakeOnLinkUp(q: seq<Command>)
    requires |q| < QUEUE_SIZE
    ensures ClassifyQueue(q, 0x2008) == Done([Rx(0x2008)] + q)
  {
    ClassifierExpansion(q, 0x2008);
  }

  /** A worker-side front push into a full queue: 99 pending records and a snapshot with RX and OVERRUN set. */
  lemma ClassifierCanBlock(q: seq<Command>)
    requires |q| == QUEUE_SIZE - 1
    ensures ClassifyQueue(q, 0x2800) == Blocked([Rx(0x2800)] + q)
  {
    PushFrontAllWithoutRoom(q, Matched(0x2800));
    assert Matched(0x2800)[..1] == [Rx(0x2800)];
  }
}
