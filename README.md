# ip2location-rs lookup core, modelled in Dafny

This project models how ip2location-rs answers a query against an IP2Location BIN
database. The database is a read-only byte buffer. The model covers:

- **Byte readers.** Offsets are 1-based and values little-endian. `u32`, IPv4 and IPv6
  addresses (four u32 words, lowest word first), and length-prefixed UTF-8 strings
  (`reader.dfy`, with the arithmetic in `bytes.dfy` and UTF-8 well-formedness in `utf8.dfy`).
- **Opening a database.** The 29-byte header is read through a cursor: five u8 fields,
  then six u32 fields (`header.dfy`).
- **The inclusive binary search over a range table** (`search.dfy`). Range `mid` is
  `[ipfrom, ipto)`, where `ipfrom` starts record `mid` and `ipto` starts record `mid + 1`.
- **Decoding one record** into the 21 optional attributes of a location record
  (`record.dfy`). A field kind is present exactly when its positions-table entry for the
  database type is nonzero. A string field is a u32 pointer stored in the field's slot;
  the string sits at pointer + 1. The country name shares the country code's slot and
  sits at pointer + 4. Latitude and longitude are the f32 stored in the slot. Any failing
  read aborts the whole decode.
- **`get_record`** (`lookup.dfy`). It picks the family's table. It narrows the window
  through the first-16-bits index when one exists, and refuses an IPv6 query against a
  database with no IPv6 ranges. Then it searches and decodes.

The properties are proved beside the readers (`bytes.dfy`, `reader.dfy`), the header
(`header.dfy`) and the search (`search.dfy`), and in `record_facts.dfy`,
`record_slots.dfy` and `lookup_facts.dfy`:

- the readers invert the encoders;
- the header round-trips;
- the search finds the unique range that holds an address in a sorted table, and when
  the index window contains the range that holds the address, the index does not change
  the answer;
- a decode succeeds exactly when the address field reads, the database type indexes the
  positions tables, and every present field reads;
- each field is present exactly when its column is nonzero, and is read from its slot.

The record's `ip` field is read at `table address + index * column_count * 4`, for both
families. For IPv6 records, which are 12 bytes wider, this is the start of the record only
for index 0. The model keeps this offset as the code computes it. `IpFieldOffsetVsRecordStart`
states exactly how far it is from the record start. A format description would
place the address at the record start for both families; the model follows the code. For IPv4 the address is the
start of the range that holds the query (`Ipv4RecordIpIsRangeStart`).

The source reads the record inside the search loop. The model's `BinarySearch` returns the
index and `GetRecord` decodes it afterwards. A decode only reads the unchanging buffer, so
the result is the same.

## Model

| member | source | states |
|---|---|---|
| Bytes.LittleEndianOfLeBytes | src/lib.rs:75-78 | a value below 256^n, written as n little-endian bytes, reads back as itself |
| Bytes.LeBytesOfLittleEndian | src/lib.rs:75-78 | reading any byte run and writing the value back gives the same bytes |
| Bytes.LittleEndianAppend | src/lib.rs:95-101 | the little-endian value of a concatenation is the first run plus the second shifted past it |
| Bytes.LittleEndian4 | src/lib.rs:76-77 | four bytes read as b0 + 2^8 b1 + 2^16 b2 + 2^24 b3 |
| Utf8.AsciiIsValidUtf8 | src/lib.rs:83 | text of bytes below 0x80 is accepted by the UTF-8 check |
| ByteReader.ReadU32 | src/lib.rs:75-78 | succeeds exactly when bytes offset-1..offset+3 are in the buffer, with their little-endian value below 2^32; otherwise out of bounds |
| ByteReader.ReadIpv4 | src/lib.rs:91-93 | an IPv4 address is the u32 read at the same 1-based offset, with the same bounds failure |
| ByteReader.ReadF32 | src/lib.rs:86-89 | the f32 at a 1-based offset is kept as the u32 bit pattern of those four little-endian bytes (see the f32 line under Left out) |
| ByteReader.ReadIpv6 | src/lib.rs:95-101 | succeeds exactly when 16 bytes are in the buffer; the value is their 128-bit little-endian number; otherwise out of bounds |
| ByteReader.Sixteen | src/lib.rs:96-100 | sixteen little-endian bytes equal their four words a, b, c, d composed as d shifted by 96, c by 64, b by 32, plus a |
| ByteReader.WordsOfComposeWords | src/lib.rs:100 | the four shifted words do not overlap: each word can be taken back out, so or is sum |
| ByteReader.ReadString | src/lib.rs:80-84 | succeeds exactly when the length byte and that many bytes are in the buffer and form valid UTF-8; the text is those bytes; a failure is invalid UTF-8 exactly when the bytes are in the buffer, and out of bounds otherwise |
| ByteReader.ReadU32OfEncoded | src/lib.rs:75-78 | a u32 written little-endian at any position is read back at its 1-based offset |
| ByteReader.ReadIpv6OfEncoded | src/lib.rs:95-101 | a 128-bit address written as 16 little-endian bytes is read back |
| ByteReader.ReadStringOfEncoded | src/lib.rs:80-84 | valid UTF-8 text under 256 bytes, behind its length byte, is read back |
| ByteReader.Ipv6WordOrder | src/lib.rs:96-100 | the word at the lowest offset is least significant, the word at offset+12 is the top word |
| Header.DecodeHeader | src/lib.rs:43-54 | a header exists exactly when the buffer has 29 bytes; a shorter buffer is an unexpected end of file |
| Header.HeaderRoundTrip | src/lib.rs:43-54 | every header written in front of any data decodes back to itself |
| Header.Cursor.constructor | src/lib.rs:43 | the cursor starts at position 0 over the file bytes |
| Header.Cursor.ReadU8 | src/lib.rs:44-48 | reads the byte at the position and advances by 1, or fails at the end and stays at the end |
| Header.Cursor.ReadU32 | src/lib.rs:49-54 | reads four little-endian bytes and advances by 4, or fails with fewer left and moves to the end |
| Header.Open | src/lib.rs:39-73 | opening succeeds exactly when the file holds a full header; the handle keeps the whole buffer and the header decoded at fixed offsets |
| RangeSearch.SearchSound | src/lib.rs:258-281 | a found index lies in the window and its range holds the address; an error is a failing range read in the window or the `mid - 1` underflow below range 0 |
| RangeSearch.Search | src/lib.rs:258-281 | the search over `[low, high]`: None once low > high; else range mid = (low+high)/2 is read, mid is returned when ipfrom <= ipno < ipto, the window becomes [low, mid-1] below ipfrom (an Overflow error at mid = 0) and [mid+1, high] otherwise |
| RangeSearch.BinarySearch | src/lib.rs:262-280 | the loop returns what the search specification returns for the window |
| RangeSearch.HolderIsUnique | src/lib.rs:268 | in a sorted table at most one half-open range holds an address |
| RangeSearch.SearchFindsHolder | src/lib.rs:264-270 | in a sorted window the search returns the range that holds the address |
| RangeSearch.SearchBelowFirst | src/lib.rs:272-273 | below range 0 of a window starting at 0 the search underflows `mid - 1` |
| RangeSearch.SearchOutside | src/lib.rs:264-280 | an address past the window, or below a window not starting at 0, is not found |
| RangeSearch.HolderExists | src/lib.rs:268 | an address between the start of the first range and the end of the last lies in one of them |
| RangeSearch.SearchTotal | src/lib.rs:258-281 | over a sorted readable window the search finds the holder, finds nothing outside, or underflows below record 0 |
| RangeSearch.SearchFromZeroStart | src/lib.rs:264-280 | when the first range starts at address 0, a search from record 0 never underflows, and finds no record exactly when the address is at or past the end of the last range |
| RangeSearch.IndexWindowAgrees | src/lib.rs:221-225 | an index window that contains the holder gives the same answer as the whole table |
| RangeSearch.BoundaryBelongsToNext | src/lib.rs:268 | an address equal to the end of range i is found in range i + 1 |
| RecordDecoder.SlotOffset | src/lib.rs:123-125 | the slot of column c is base + index*(column_count*4 + extra) + extra + 4*(c-1) |
| RecordDecoder.IpFieldOffset | src/lib.rs:106-121 | the `ip` field is read at the family's table address + index*column_count*4, without the base passed in and without the 12 extra bytes of an IPv6 record |
| RecordDecoder.DecodeRecord | src/lib.rs:103-205 | the record specification: the address read at the `ip` offset, an out-of-bounds error for a type past the 25-entry tables, then every field read in fill order, the first failing read being the result |
| RecordDecoder.ReadRecord | src/lib.rs:103-205 | filling the record field by field gives the record specification: the address, then each field in order, with the first failing read as the result |
| RecordFacts.AssembleSucceedsIff | src/lib.rs:127-204 | a record is produced exactly when every field reads |
| RecordFacts.AssembledFields | src/lib.rs:104-204 | a produced record holds the address and, for every field, the value read for it |
| RecordFacts.AssembleFailure | src/lib.rs:127-202 | a failed record reports the error of some field whose read failed |
| RecordFacts.ReadOfFields | src/lib.rs:123-202 | the reads gathered for a record are the reads of each field on its own |
| RecordFacts.DecodeSucceedsIff | src/lib.rs:103-205 | a decode succeeds exactly when the address reads, the type indexes the positions tables and every field reads |
| RecordFacts.DecodedFields | src/lib.rs:106-204 | a decoded record holds the address read at its address offset and, for each field, that field's read |
| RecordFacts.DecodeFailure | src/lib.rs:103-205 | a failed decode is out of bounds or invalid UTF-8, and is the error of some field once the address and type are fine |
| RecordFacts.ReadError | src/lib.rs:127-202 | a field read fails only out of bounds or on invalid UTF-8 |
| RecordFacts.PresentIffColumn | src/lib.rs:127-202 | in a decoded record a field is present exactly when its column for the database type is nonzero |
| RecordFacts.TextPresence | src/lib.rs:132-134 | a string field that reads is present exactly when its column is nonzero |
| RecordFacts.CoordinatePresence | src/lib.rs:144-150 | a coordinate that reads is present exactly when its column is nonzero |
| RecordSlots.FieldFromSlot | src/lib.rs:123-202 | a present string field is the string at its slot's pointer plus its adjustment; a present coordinate is the f32 bits in its slot |
| RecordSlots.CoordinateSlot | src/lib.rs:144-150 | latitude and longitude are read directly at the slot, with no pointer |
| RecordSlots.TextSlot | src/lib.rs:132-134 | a string field is the string its slot's pointer leads to |
| RecordSlots.CountryNamesShareSlot | src/lib.rs:127-130 | code and name are both present or both absent; both come from one pointer, the code at +1 and the name at +4 |
| RecordSlots.PresenceDependsOnTypeOnly | src/lib.rs:127-202 | any two records of databases of the same type carry the same fields |
| RecordSlots.TextFieldOfEncoded | src/lib.rs:132-134 | a pointer written in a field's slot and a length-prefixed string written at it are read back as that string |
| RecordSlots.PointerOfEncoded | src/lib.rs:75-78 | four little-endian bytes at a slot read back as the pointer they encode |
| RecordSlots.TextOfEncoded | src/lib.rs:80-84 | a length byte followed by that much valid UTF-8 reads back as that text |
| Lookup.GetRecord | src/lib.rs:207-256 | the lookup returns the lookup specification; an IPv6 query against a database without IPv6 ranges is refused |
| Lookup.RangeAt | src/lib.rs:226-230 | range mid of the family's table is (the address at base + mid*row, the address at base + (mid+1)*row), row being column_count*4 + extra; either failing read is the result (also src/lib.rs:248-252) |
| Lookup.IndexSlot | src/lib.rs:221 | the index entry of a query is (top 16 bits of the address)*8 + the family's index base (also src/lib.rs:243) |
| Lookup.SearchWindow | src/lib.rs:218-225 | the window is [0, count] without an index, otherwise the two u32 read at the index entry and 4 bytes after it (also src/lib.rs:240-247) |
| Lookup.LookupRecord | src/lib.rs:207-256 | the lookup specification: an IPv6 query against a database with no IPv6 ranges is a wrong-family error; otherwise the window is searched and the found range's record decoded, None when no range holds the address |
| LookupFacts.LookupFound | src/lib.rs:258-270 | a returned record is the decode of a range in the window that holds the address |
| LookupFacts.LookupFindsHolder | src/lib.rs:207-270 | over a sorted table whose window contains the holder of the address, the lookup returns that range's record, or its decode error |
| LookupFacts.LookupPastWindow | src/lib.rs:264-280 | an address at or past the end of the window finds no record |
| LookupFacts.IndexAgreesWithFullTable | src/lib.rs:221-225 | searching the index window that contains the holder gives what searching ranges 0 to count gives |
| LookupFacts.IpFieldOffsetVsRecordStart | src/lib.rs:106-121 | the address offset falls short of the record start by 12 bytes per earlier IPv6 record; it is the start exactly for IPv4 or record 0 |
| LookupFacts.Ipv4AddressIsRecordStart | src/lib.rs:108-112 | an IPv4 record's address is the `ipfrom` the search reads for it |
| LookupFacts.Ipv4RecordIpIsRangeStart | src/lib.rs:108-112 | for IPv4 the returned record's address is the start of the range that holds the query |

## Left out

- Opening the file and memory-mapping it: the model starts from the file's bytes.
- Parsing the query text into an address: `GetRecord` takes the parsed IPv4 or IPv6 number. A text that does not parse is not modelled.
- Rendering the record's address as text: the `ip` field keeps the number that was read.
- Decoding latitude and longitude as f32: the model keeps the 32-bit pattern read little-endian. No floating point is modelled.
- The contents of the positions tables (`src/positions.rs`): they are a parameter of 19 tables of 25 entries. Every property holds for any contents.
- Error message texts. Errors are kinds: a panic on an out-of-range slice or table index becomes out of bounds, a short header becomes an unexpected end of file, an IPv6 query against an IPv4-only database becomes wrong family, and a rejected string becomes invalid UTF-8.
- `mid - 1` at `mid == 0`: a usize underflow in the source, modelled as an Overflow error. The model does not follow the wrapped value of a release build. It is reached only by an address below the first range, searched from record 0 (`SearchBelowFirst`). From an index window that starts past record 0 the same address gives no record, so the two searches disagree there. When the first range starts at address 0 the underflow cannot happen (`SearchFromZeroStart`).
- Machine-width arithmetic of offsets: offsets are unbounded naturals. A usize wrap-around of `offset + 3` and similar sums is not modelled.
- The `Debug` and `Serialize` derivations, the stored database path, and the crate's tests and test data.
- RangeSearch.BinarySearch: it returns the index found. Decoding that record is left to `GetRecord`, where the source decodes it inside the loop.
- RecordFacts.AssembleFailure: it states that the error is that of some failing field, not that this field is the first failure in fill order. The fill order is fixed by `RecordDecoder.ReadRecord`'s contract.
- RecordFacts.DecodeFailure: like `AssembleFailure`, it does not state which failing field is reported first.
- LookupFacts.Ipv4RecordIpIsRangeStart: it is stated for IPv4 only. For IPv6 the address is read from a shifted offset, which `IpFieldOffsetVsRecordStart` states.
