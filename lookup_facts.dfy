/**
 * What a lookup returns: the record of a range that holds the address, found whenever
 * the table is sorted and the window contains it, and the same with or without the
 * index; where the record's address field comes from.
 */
module LookupFacts {
  import opened Results
  import opened Header
  import opened Address
  import opened RangeSearch
  import opened RecordDecoder
  import opened RecordFacts
  import opened Lookup
  import Layout

  /** A record returned by a lookup is the decode of a range in the window that holds the address. */
  lemma LookupFound(db: Database, pos: Layout.Positions, q: IpAddress) returns (mid: nat)
    requires LookupRecord(db, pos, q).Ok? && LookupRecord(db, pos, q).value.Some?
    ensures SearchWindow(db, q).Ok?
    ensures SearchWindow(db, q).value.0 <= mid <= SearchWindow(db, q).value.1
    ensures RangeAt(db, q, mid).Ok?
    ensures RangeAt(db, q, mid).value.0 <= q.Number() < RangeAt(db, q, mid).value.1
    ensures DecodeRecord(db, pos, q, RecordOf(db, q, mid)) == Ok(LookupRecord(db, pos, q).value.value)
  {
    var window := SearchWindow(db, q).value;
    SearchSound(Fetcher(db, q), q.Number(), window.0, window.1);
    mid := Search(Fetcher(db, q), q.Number(), window.0, window.1).value.value;
  }

  /**
   * Over a sorted table whose window holds the address in range `i`, the lookup returns
   * the decode of record `i`.
   */
  lemma LookupFindsHolder(db: Database, pos: Layout.Positions, q: IpAddress, starts: seq<nat>, low: nat, high: nat, i: nat)
    requires !(q.V6? && db.header.ipv6DbCount == 0)
    requires SearchWindow(db, q) == Ok((low, high))
    requires Sorted(starts) && Tabulates(Fetcher(db, q), starts, low, high)
    requires low <= i <= high && Holds(starts, i, q.Number())
    ensures DecodeRecord(db, pos, q, RecordOf(db, q, i)).Ok? ==>
      LookupRecord(db, pos, q) == Ok(Some(DecodeRecord(db, pos, q, RecordOf(db, q, i)).value))
    ensures DecodeRecord(db, pos, q, RecordOf(db, q, i)).Err? ==>
      LookupRecord(db, pos, q) == Err(DecodeRecord(db, pos, q, RecordOf(db, q, i)).error)
  {
    SearchFindsHolder(Fetcher(db, q), starts, q.Number(), low, high, i);
  }

  /** Over a sorted table, an address at or past the end of the window is not found. */
  lemma LookupPastWindow(db: Database, pos: Layout.Positions, q: IpAddress, starts: seq<nat>, low: nat, high: nat)
    requires !(q.V6? && db.header.ipv6DbCount == 0)
    requires SearchWindow(db, q) == Ok((low, high)) && low <= high
    requires Sorted(starts) && Tabulates(Fetcher(db, q), starts, low, high)
    requires starts[high + 1] <= q.Number()
    ensures LookupRecord(db, pos, q) == Ok(None)
  {
    SearchTotal(Fetcher(db, q), starts, q.Number(), low, high);
  }

  /**
   * The index only narrows the search: when the index window holds the range of the
   * address, searching it gives what searching the whole table `[0, count]` gives.
   */
  lemma IndexAgreesWithFullTable(db: Database, pos: Layout.Positions, q: IpAddress, starts: seq<nat>, lo: nat, hi: nat, i: nat)
    requires Sorted(starts) && Tabulates(Fetcher(db, q), starts, 0, RangeCount(db, q))
    requires hi <= RangeCount(db, q) && lo <= i <= hi && Holds(starts, i, q.Number())
    ensures LookupIn(db, pos, q, lo, hi) == LookupIn(db, pos, q, 0, RangeCount(db, q))
  {
    IndexWindowAgrees(Fetcher(db, q), starts, q.Number(), RangeCount(db, q), lo, hi, i);
  }

  /**
   * The address field is read at the start of the record only for IPv4 or for the first
   * record: the IPv6 offset leaves out the 12 extra bytes of every earlier record.
   */
  lemma IpFieldOffsetVsRecordStart(db: Database, q: IpAddress, mid: nat)
    ensures IpFieldOffset(db, q, mid) + (if q.V4? then 0 else 12 * mid) == TableBase(db, q) + mid * RowSize(db, q)
    ensures IpFieldOffset(db, q, mid) == TableBase(db, q) + mid * RowSize(db, q) <==> q.V4? || mid == 0
  {
  }

  /**
   * For IPv4 the address in a found record is the start of the range that holds the
   * query, read from the same bytes as the search's `ipfrom`.
   */
  lemma Ipv4RecordIpIsRangeStart(db: Database, pos: Layout.Positions, q: IpAddress) returns (mid: nat)
    requires q.V4?
    requires LookupRecord(db, pos, q).Ok? && LookupRecord(db, pos, q).value.Some?
    ensures RangeAt(db, q, mid).Ok?
    ensures LookupRecord(db, pos, q).value.value.ip == Some(RangeAt(db, q, mid).value.0)
    ensures RangeAt(db, q, mid).value.0 <= q.Number() < RangeAt(db, q, mid).value.1
  {
    mid := LookupFound(db, pos, q);
    Ipv4AddressIsRecordStart(db, pos, q, mid);
  }

  /** An IPv4 record's address field is the first four bytes of the record, where the search reads `ipfrom`. */
  lemma Ipv4AddressIsRecordStart(db: Database, pos: Layout.Positions, q: IpAddress, mid: nat)
    requires q.V4? && DecodeRecord(db, pos, q, RecordOf(db, q, mid)).Ok? && RangeAt(db, q, mid).Ok?
    ensures DecodeRecord(db, pos, q, RecordOf(db, q, mid)).value.ip == Some(RangeAt(db, q, mid).value.0)
  {
    DecodedFields(db, pos, q, RecordOf(db, q, mid));
    IpFieldOffsetVsRecordStart(db, q, mid);
  }
}
