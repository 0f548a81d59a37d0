/**
 * The interrupt-lockup poll of TASK_ETHERNET (esp32/mods/modeth.c): after a
 * receive timeout the interrupt pin is read until it is high or
 * MAX_TIMEOUT low reads have been counted, with a 10 ms delay per low read.
 */
module Lockup {
  import opened EthTypes

  /** The value `timeout` reaches: the low reads before the first high one, at most `limit`. */
  function LowPolls(pins: seq<bool>, limit: nat): (k: nat)
    ensures k <= limit && k <= |pins|
    decreases limit
  {
    if limit == 0 || pins == [] || pins[0] then 0 else 1 + LowPolls(pins[1..], limit - 1)
  }

  /** The pin read low on every one of the first MAX_TIMEOUT polls. */
  ghost predicate LockedUp(pins: seq<bool>) {
    |pins| >= MAX_TIMEOUT && forall i | 0 <= i < MAX_TIMEOUT :: !pins[i]
  }

  /** One 10 ms vTaskDelay per low read. */
  function PollDelays(k: nat): (t: seq<Effect>)
    ensures |t| == k && forall i | 0 <= i < k :: t[i] == Delay(10)
    decreases k
  {
    if k == 0 then [] else PollDelays(k - 1) + [Delay(10)]
  }

  /** LowPolls counts exactly the leading low reads. */
  lemma {:induction false} LowPollsLeadingLows(pins: seq<bool>, limit: nat)
    ensures forall i | 0 <= i < LowPolls(pins, limit) :: !pins[i]
    ensures LowPolls(pins, limit) < limit && LowPolls(pins, limit) < |pins| ==> pins[LowPolls(pins, limit)]
    decreases limit
  {
    if !(limit == 0 || pins == [] || pins[0]) {
      LowPollsLeadingLows(pins[1..], limit - 1);
    }
  }

  /** The poll counts to its bound iff the pin read low on every poll up to the bound. */
  lemma {:induction false} LowPollsReachesLimit(pins: seq<bool>, limit: nat)
    requires |pins| >= limit
    ensures LowPolls(pins, limit) == limit <==> forall i | 0 <= i < limit :: !pins[i]
    decreases limit
  {
    LowPollsLeadingLows(pins, limit);
    if limit > 0 && !pins[0] {
      LowPollsReachesLimit(pins[1..], limit - 1);
      assert (forall i | 0 <= i < limit - 1 :: !pins[1..][i]) <==> (forall i | 0 <= i < limit :: !pins[i]) by {
        if forall i | 0 <= i < limit - 1 :: !pins[1..][i] {
          forall i | 0 <= i < limit ensures !pins[i] {
            if i > 0 { assert pins[i] == pins[1..][i - 1]; }
          }
        }
      }
    }
  }

  /** Where the C loop stops: at the first high read, or at the bound. */
  lemma PollExit(pins: seq<bool>, timeout: nat)
    requires timeout <= MAX_TIMEOUT < |pins|
    requires forall i | 0 <= i < timeout :: !pins[i]
    requires pins[timeout] || timeout == MAX_TIMEOUT
    ensures LowPolls(pins, MAX_TIMEOUT) == timeout
  {
    LowPollsLeadingLows(pins, MAX_TIMEOUT);
    if timeout == MAX_TIMEOUT {
      LowPollsReachesLimit(pins, MAX_TIMEOUT);
    }
  }

  /**
   * The poll loop: read the pin, and while it is low and fewer than
   * MAX_TIMEOUT low reads were counted, wait 10 ms and count one more.
   */
  method PollInterruptPin(pins: seq<bool>) returns (timeout: nat, delays: seq<Effect>)
    requires |pins| > MAX_TIMEOUT
    ensures timeout == LowPolls(pins, MAX_TIMEOUT) && delays == PollDelays(timeout)
    ensures timeout == MAX_TIMEOUT <==> LockedUp(pins)
  {
    timeout := 0;
    delays := [];
    while !pins[timeout] && timeout < MAX_TIMEOUT
      invariant 0 <= timeout <= MAX_TIMEOUT
      invariant forall i | 0 <= i < timeout :: !pins[i]
      invariant delays == PollDelays(timeout)
      decreases MAX_TIMEOUT - timeout
    {
      delays := delays + [Delay(10)];
      timeout := timeout + 1;
    }
    PollExit(pins, timeout);
    LowPollsReachesLimit(pins, MAX_TIMEOUT);
  }

  /** A high read at poll j, after j low ones, ends the poll with the count at j. */
  lemma FirstHighReadEndsPoll(pins: seq<bool>, j: nat)
    requires j < MAX_TIMEOUT && j < |pins| && pins[j]
    requires forall i | 0 <= i < j :: !pins[i]
    ensures LowPolls(pins, MAX_TIMEOUT) == j
  {
    LowPollsLeadingLows(pins, MAX_TIMEOUT);
  }
}
