/** The query address, already parsed: a u32 for IPv4, a u128 for IPv6. */
module Address {
  import opened Bytes

  datatype IpAddress = V4(v4: u32) | V6(v6: u128) {
    /** The address as an unsigned number (`u32::from` / `u128::from`). */
    function Number(): nat
    {
      match this
      case V4(n) => n
      case V6(n) => n
    }
  }
}
