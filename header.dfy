/**
 * Opening a database: the 29-byte header at the start of the file, read through a
 * cursor that advances over five u8 fields and six little-endian u32 fields.
 */
module Header {
  import opened Results
  import opened Bytes
  import ByteReader

  /** Bytes taken by the header: five u8 fields and six u32 fields. */
  const HeaderSize: nat := 29

  /** The header fields of the database handle, in file order. */
  datatype Header = Header(
    dbType: byte, dbColumn: byte, dbYear: byte, dbMonth: byte, dbDay: byte,
    ipv4DbCount: u32, ipv4DbAddr: u32, ipv6DbCount: u32, ipv6DbAddr: u32,
    ipv4IndexBaseAddr: u32, ipv6IndexBaseAddr: u32)

  /** The database handle: the whole file, never changed after open, and its header. */
  datatype Database = Database(buffer: seq<byte>, header: Header)

  /** The header layout at fixed 0-based offsets: bytes 0..4, then u32 fields at 5, 9, 13, 17, 21 and 25. */
  function DecodeHeader(buffer: seq<byte>): (r: Result<Header>)
    ensures r.Ok? <==> |buffer| >= HeaderSize
    ensures r.Err? ==> r.error == UnexpectedEof
  {
    if |buffer| < HeaderSize then Err(UnexpectedEof)
    else
      ByteReader.Pow256Words();
      Ok(Header(buffer[0], buffer[1], buffer[2], buffer[3], buffer[4],
                LittleEndian(buffer[5..9]), LittleEndian(buffer[9..13]),
                LittleEndian(buffer[13..17]), LittleEndian(buffer[17..21]),
                LittleEndian(buffer[21..25]), LittleEndian(buffer[25..29])))
  }

  /** The header as it is laid out in a file. */
  function EncodeHeader(h: Header): (s: seq<byte>)
    ensures |s| == HeaderSize
  {
    [h.dbType, h.dbColumn, h.dbYear, h.dbMonth, h.dbDay]
    + LeBytes(h.ipv4DbCount, 4) + LeBytes(h.ipv4DbAddr, 4)
    + LeBytes(h.ipv6DbCount, 4) + LeBytes(h.ipv6DbAddr, 4)
    + LeBytes(h.ipv4IndexBaseAddr, 4) + LeBytes(h.ipv6IndexBaseAddr, 4)
  }

  /** Every header, written in front of any data, is decoded back to itself. */
  lemma HeaderRoundTrip(h: Header, rest: seq<byte>)
    ensures DecodeHeader(EncodeHeader(h) + rest) == Ok(h)
  {
    var b := EncodeHeader(h) + rest;
    ByteReader.Pow256Words();
    assert b[5..9] == LeBytes(h.ipv4DbCount, 4);
    assert b[9..13] == LeBytes(h.ipv4DbAddr, 4);
    assert b[13..17] == LeBytes(h.ipv6DbCount, 4);
    assert b[17..21] == LeBytes(h.ipv6DbAddr, 4);
    assert b[21..25] == LeBytes(h.ipv4IndexBaseAddr, 4);
    assert b[25..29] == LeBytes(h.ipv6IndexBaseAddr, 4);
    LittleEndianOfLeBytes(h.ipv4DbCount, 4);
    LittleEndianOfLeBytes(h.ipv4DbAddr, 4);
    LittleEndianOfLeBytes(h.ipv6DbCount, 4);
    LittleEndianOfLeBytes(h.ipv6DbAddr, 4);
    LittleEndianOfLeBytes(h.ipv4IndexBaseAddr, 4);
    LittleEndianOfLeBytes(h.ipv6IndexBaseAddr, 4);
  }

  /** An in-memory reader over the file bytes with a position that reads advance. */
  class Cursor {
    const data: seq<byte>
    var position: nat

    constructor (data: seq<byte>)
      ensures this.data == data && position == 0
    {
      this.data := data;
      position := 0;
    }

    /** One byte; at the end of the data the read fails and the cursor is left at the end. */
    method ReadU8() returns (r: Result<byte>)
      modifies this
      ensures old(position) < |data| ==> r == Ok(data[old(position)]) && position == old(position) + 1
      ensures old(position) >= |data| ==> r == Err(UnexpectedEof) && position == |data|
    {
      if position < |data| {
        r := Ok(data[position]);
        position := position + 1;
      } else {
        r := Err(UnexpectedEof);
        position := |data|;
      }
    }

    /** A little-endian u32; with fewer than four bytes left the read fails and the cursor is left at the end. */
    method ReadU32() returns (r: Result<u32>)
      modifies this
      ensures old(position) + 4 <= |data| ==>
                r == Ok(LittleEndian(data[old(position)..old(position) + 4])) && position == old(position) + 4
      ensures old(position) + 4 > |data| ==> r == Err(UnexpectedEof) && position == |data|
    {
      if position + 4 <= |data| {
        ByteReader.Pow256Words();
        r := Ok(LittleEndian(data[position..position + 4]));
        position := position + 4;
      } else {
        r := Err(UnexpectedEof);
        position := |data|;
      }
    }
  }

  /** Opening reads the header in file order; a file shorter than the header is an error, not a handle. */
  method Open(buffer: seq<byte>) returns (r: Result<Database>)
    ensures r.Ok? <==> |buffer| >= HeaderSize
    ensures r.Ok? ==> r.value == Database(buffer, DecodeHeader(buffer).value)
    ensures r.Err? ==> r.error == UnexpectedEof
  {
    var cursor := new Cursor(buffer);
    var dbType :- cursor.ReadU8();
    var dbColumn :- cursor.ReadU8();
    var dbYear :- cursor.ReadU8();
    var dbMonth :- cursor.ReadU8();
    var dbDay :- cursor.ReadU8();
    var ipv4DbCount :- cursor.ReadU32();
    var ipv4DbAddr :- cursor.ReadU32();
    var ipv6DbCount :- cursor.ReadU32();
    var ipv6DbAddr :- cursor.ReadU32();
    var ipv4IndexBaseAddr :- cursor.ReadU32();
    var ipv6IndexBaseAddr :- cursor.ReadU32();
    r := Ok(Database(cursor.data, Header(dbType, dbColumn, dbYear, dbMonth, dbDay,
                                         ipv4DbCount, ipv4DbAddr, ipv6DbCount, ipv6DbAddr,
                                         ipv4IndexBaseAddr, ipv6IndexBaseAddr)));
  }
}
