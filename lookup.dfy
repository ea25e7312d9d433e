/**
 * Looking up an address: choosing the family's range table, narrowing the search
 * window through the first-16-bits index when the database has one, searching the
 * ranges and decoding the record that holds the address.
 */
module Lookup {
  import opened Results
  import opened ByteReader
  import opened Header
  import opened Address
  import opened RangeSearch
  import opened RecordDecoder
  import Layout

  /** Extra bytes per range record: 0 for IPv4, 12 for IPv6 (ipfrom is 16 bytes, not 4). */
  function Extra(q: IpAddress): nat
  {
    if q.V4? then 0 else 12
  }

  /** Where the family's range table starts. */
  function TableBase(db: Database, q: IpAddress): nat
  {
    if q.V4? then db.header.ipv4DbAddr else db.header.ipv6DbAddr
  }

  /** How many ranges the family's table holds. */
  function RangeCount(db: Database, q: IpAddress): nat
  {
    if q.V4? then db.header.ipv4DbCount else db.header.ipv6DbCount
  }

  /** Where the family's index starts; 0 when the database has no index. */
  function IndexBase(db: Database, q: IpAddress): nat
  {
    if q.V4? then db.header.ipv4IndexBaseAddr else db.header.ipv6IndexBaseAddr
  }

  /** The size of one range record of the family. */
  function RowSize(db: Database, q: IpAddress): nat
  {
    db.header.dbColumn * 4 + Extra(q)
  }

  /** The `get_ip_range` closure: ipfrom at the start of record `mid`, ipto at the start of record `mid + 1`. */
  function RangeAt(db: Database, q: IpAddress, mid: nat): Result<(nat, nat)>
  {
    var ipfrom :- ReadIp(db.buffer, q, TableBase(db, q) + mid * RowSize(db, q));
    var ipto :- ReadIp(db.buffer, q, TableBase(db, q) + (mid + 1) * RowSize(db, q));
    Ok((ipfrom, ipto))
  }

  /** The range fetcher handed to the search. */
  function Fetcher(db: Database, q: IpAddress): RangeFetch
  {
    mid => RangeAt(db, q, mid)
  }

  /** The index entry of the query: the top 16 bits of the address select one of 65536 eight-byte entries. */
  function IndexSlot(db: Database, q: IpAddress): nat
  {
    var top := if q.V4? then q.v4 / 0x1_0000 else q.v6 / 0x1_0000_0000_0000_0000_0000_0000_0000;
    top * 8 + IndexBase(db, q)
  }

  /** The search window: `[0, count]`, or the pair of u32 bounds in the query's index entry. */
  function SearchWindow(db: Database, q: IpAddress): Result<(nat, nat)>
  {
    if IndexBase(db, q) > 0 then
      var low :- ReadU32(db.buffer, IndexSlot(db, q));
      var high :- ReadU32(db.buffer, IndexSlot(db, q) + 4);
      Ok((low, high))
    else Ok((0, RangeCount(db, q)))
  }

  /** The record at index `mid` of the query's family. */
  function RecordOf(db: Database, q: IpAddress, mid: nat): RecordRef
  {
    RecordRef(TableBase(db, q), Extra(q), mid)
  }

  /** The record of the range found by searching `[low, high]`, or None when no range there holds the address. */
  function LookupIn(db: Database, pos: Layout.Positions, q: IpAddress, low: nat, high: nat): Result<Option<LocationRecord>>
  {
    var found :- Search(Fetcher(db, q), q.Number(), low, high);
    if found.None? then Ok(None)
    else
      var rec :- DecodeRecord(db, pos, q, RecordOf(db, q, found.value));
      Ok(Some(rec))
  }

  /**
   * The result of a lookup: an IPv6 query against a database without IPv6 ranges is
   * refused; otherwise the search runs over the query's window.
   */
  function LookupRecord(db: Database, pos: Layout.Positions, q: IpAddress): Result<Option<LocationRecord>>
  {
    if q.V6? && db.header.ipv6DbCount == 0 then Err(WrongFamily)
    else
      var window :- SearchWindow(db, q);
      LookupIn(db, pos, q, window.0, window.1)
  }

  /**
   * `get_record` on a parsed address. The search yields the index of the range that
   * holds the address and the record is decoded afterwards; a decode is a pure read
   * of the buffer, so this returns what decoding inside the loop returns.
   */
  method GetRecord(db: Database, pos: Layout.Positions, q: IpAddress) returns (r: Result<Option<LocationRecord>>)
    ensures r == LookupRecord(db, pos, q)
    ensures q.V6? && db.header.ipv6DbCount == 0 ==> r == Err(WrongFamily)
  {
    var offset: nat;
    var low: nat := 0;
    var high: nat;
    var base: nat;
    if q.V4? {
      offset := 0;
      high := db.header.ipv4DbCount;
      base := db.header.ipv4DbAddr;
      if db.header.ipv4IndexBaseAddr > 0 {
        var indexpos := (q.v4 / 0x1_0000) * 8 + db.header.ipv4IndexBaseAddr;
        low :- ReadU32(db.buffer, indexpos);
        high :- ReadU32(db.buffer, indexpos + 4);
      }
    } else {
      if db.header.ipv6DbCount == 0 {
        return Err(WrongFamily);
      }
      offset := 12;
      high := db.header.ipv6DbCount;
      base := db.header.ipv6DbAddr;
      if db.header.ipv6IndexBaseAddr > 0 {
        var indexpos := (q.v6 / 0x1_0000_0000_0000_0000_0000_0000_0000) * 8 + db.header.ipv6IndexBaseAddr;
        low :- ReadU32(db.buffer, indexpos);
        high :- ReadU32(db.buffer, indexpos + 4);
      }
    }
    assert SearchWindow(db, q) == Ok((low, high));
    assert RecordOf(db, q, 0) == RecordRef(base, offset, 0);
    var found :- BinarySearch(low, high, q.Number(), Fetcher(db, q));
    if found.None? {
      return Ok(None);
    }
    var rec :- ReadRecord(db, pos, q, base, offset, found.value);
    return Ok(Some(rec));
  }
}
