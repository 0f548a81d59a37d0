/**
 * Source of the Ethernet MAC address and the KSZ8851 fifth-byte erratum
 * fix-up, done once when TASK_ETHERNET first runs (esp32/mods/modeth.c).
 */
module MacAddress {
  import opened EthTypes
  import opened Wrappers

  /** Value the KSZ8851 does not accept in the fifth MAC byte. */
  const RESERVED_BYTE4: Byte := 0x06

  /**
   * ethernet_mac: the factory MAC when esp_read_mac succeeds (`read` is
   * Some), fixed up if its fifth byte is 0x06; the chip defaults
   * KSZ8851_MAC0..5 otherwise, with no fix-up.
   */
  function EthernetMac(read: Option<seq<Byte>>, defaults: seq<Byte>): (m: seq<Byte>)
    requires |defaults| == MAC_SIZE
    requires read.Some? ==> |read.value| == MAC_SIZE
    ensures |m| == MAC_SIZE
    ensures read.None? ==> m == defaults
    ensures read.Some? ==> m[4] != RESERVED_BYTE4
    ensures read.Some? ==> forall i | 0 <= i < MAC_SIZE && i != 4 :: m[i] == read.value[i]
    ensures read.Some? && read.value[4] != RESERVED_BYTE4 ==> m == read.value
    ensures read.Some? && read.value[4] == RESERVED_BYTE4 ==> m[4] & 0x01 == 0x01 && m[4] & read.value[5] == read.value[5]
  {
    match read
    case None => defaults
    case Some(mac) =>
      if mac[4] == RESERVED_BYTE4 then mac[4 := mac[4] | (mac[5] | 0x01)] else mac
  }

  /** Erratum: a fifth byte of 0x06 becomes 0x06 | sixth byte | 0x01. */
  lemma ErratumFixup(mac: seq<Byte>, defaults: seq<Byte>)
    requires |mac| == MAC_SIZE && |defaults| == MAC_SIZE && mac[4] == RESERVED_BYTE4
    ensures EthernetMac(Some(mac), defaults)[4] == 0x06 | mac[5] | 0x01
  {
  }

  /** Factory MAC {.., 0x06, 0x03}: the fifth byte becomes 0x07. */
  lemma ErratumExample(defaults: seq<Byte>)
    requires |defaults| == MAC_SIZE
    ensures EthernetMac(Some([0x70, 0xB3, 0xD5, 0x49, 0x06, 0x03]), defaults) == [0x70, 0xB3, 0xD5, 0x49, 0x07, 0x03]
  {
  }
}
