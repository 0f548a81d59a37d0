/**
 * Pure checks of esp32/mods/modeth.c outside the worker: hostname
 * validation, the started-gating of the raw register command, and the
 * link-speed query.
 */
module Guards {
  import opened EthTypes
  import opened Wrappers

  /** TCPIP_HOSTNAME_MAX_SIZE of the ESP-IDF TCP/IP adapter. */
  const HOSTNAME_MAX_SIZE: nat := 32

  /** strlen: the characters before the first NUL. */
  function StrLen(s: seq<char>): (n: nat)
    ensures n <= |s|
    ensures forall i | 0 <= i < n :: s[i] != '\0'
    ensures n < |s| ==> s[n] == '\0'
    decreases |s|
  {
    if s == [] || s[0] == '\0' then 0 else 1 + StrLen(s[1..])
  }

  /**
   * eth_validate_hostname as written: a NULL pointer is rejected and the
   * length is stored in a uint8_t, so it is checked modulo 256.
   */
  function HostnameAcceptedAsWritten(hostname: Option<seq<char>>): (accepted: bool)
    ensures hostname.None? ==> !accepted
    ensures hostname.Some? && 0 < StrLen(hostname.value) <= HOSTNAME_MAX_SIZE ==> accepted
    ensures hostname.Some? && StrLen(hostname.value) % 256 == 0 ==> !accepted
    ensures accepted ==> 0 < StrLen(hostname.value) % 256 <= HOSTNAME_MAX_SIZE
  {
    hostname.Some? &&
    var len := StrLen(hostname.value) % 256;
    !(len == 0 || len > HOSTNAME_MAX_SIZE)
  }

  /** eth_validate_hostname as intended: a non-empty name of at most HOSTNAME_MAX_SIZE characters. */
  function HostnameAccepted(hostname: Option<seq<char>>): (accepted: bool)
    ensures accepted ==> hostname.Some? && 0 < StrLen(hostname.value) <= HOSTNAME_MAX_SIZE
    ensures hostname.Some? && 0 < StrLen(hostname.value) <= HOSTNAME_MAX_SIZE ==> accepted
  {
    hostname.Some? && var len := StrLen(hostname.value); 0 < len <= HOSTNAME_MAX_SIZE
  }

  /** The two checks agree on every name shorter than 256 characters. */
  lemma HostnameChecksAgreeBelow256(hostname: Option<seq<char>>)
    requires hostname.Some? ==> StrLen(hostname.value) < 256
    ensures HostnameAcceptedAsWritten(hostname) == HostnameAccepted(hostname)
  {
  }

  /** The truncated length lets a 257-character hostname through. */
  lemma HostnameTruncationAccepts257()
    ensures var name := seq(257, _ => 'a');
      HostnameAcceptedAsWritten(Some(name)) && !HostnameAccepted(Some(name))
  {
    var name := seq(257, _ => 'a');
    StrLenNoNul(name);
  }

  /** A name without NUL characters has strlen equal to its length. */
  lemma StrLenNoNul(s: seq<char>)
    requires forall i | 0 <= i < |s| :: s[i] != '\0'
    ensures StrLen(s) == |s|
  {
  }

  /** What the `register` method of the ETH object does with the chip. */
  datatype RegAccess = NotInitialized | ReadRegister(addr: int) | WriteRegister(addr: int, value: int) | NoAccess

  /**
   * modeth_ksz8851_reg_wr: with ETHERNET_EVT_STARTED clear it raises
   * OSError; otherwise mode 0 reads register `addr`, and any other mode
   * writes `value` when a fourth argument was given.
   */
  function RegisterAccess(started: bool, addr: int, mode: int, value: Option<int>): (r: RegAccess)
    ensures r.NotInitialized? <==> !started
    ensures r.ReadRegister? || r.WriteRegister? ==> started && r.addr == addr
    ensures r.ReadRegister? <==> started && mode == 0
    ensures r.WriteRegister? <==> started && mode != 0 && value.Some?
    ensures r.WriteRegister? ==> r.value == value.value
  {
    if !started then NotInitialized
    else if mode == 0 then ReadRegister(addr)
    else if value.Some? then WriteRegister(addr, value.value)
    else NoAccess
  }

  datatype Speed = Speed10M | Speed100M

  /** get_eth_link_speed from the port status register. */
  function LinkSpeed(portStatus: bv16): (s: Speed)
    ensures s == Speed100M <==> portStatus & PORT_STAT_SPEED_100MBIT != 0
  {
    if portStatus & PORT_STAT_SPEED_100MBIT != 0 then Speed100M else Speed10M
  }

  /** Only the 100 Mbit/s bit decides the speed. */
  lemma LinkSpeedOnlyBit(a: bv16, b: bv16)
    requires a & PORT_STAT_SPEED_100MBIT == b & PORT_STAT_SPEED_100MBIT
    ensures LinkSpeed(a) == LinkSpeed(b)
  {
  }
}
