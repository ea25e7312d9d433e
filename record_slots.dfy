/**
 * Where each field of a decoded record comes from: the slot of its column in the
 * record, holding a pointer to a length-prefixed string or the bits of an f32.
 */
module RecordSlots {
  import opened Results
  import opened Bytes
  import opened ByteReader
  import opened Header
  import opened Address
  import opened Utf8
  import opened RecordDecoder
  import opened RecordFacts
  import Layout

  /**
   * A present string field is the string at its slot's pointer plus the field's adjustment;
   * a present coordinate is the f32 stored in its slot.
   */
  lemma FieldFromSlot(db: Database, pos: Layout.Positions, ipaddr: IpAddress, at: RecordRef, a: Attribute)
    requires DecodeRecord(db, pos, ipaddr, at).Ok?
    ensures db.header.dbType < Layout.TypeCount
    ensures Column(db, pos, FieldOf(a)) != 0 && IsCoordinate(a) ==>
      var slot := SlotOffset(db, at, Column(db, pos, FieldOf(a)));
      ReadF32(db.buffer, slot).Ok?
      && Get(DecodeRecord(db, pos, ipaddr, at).value, a) == Some(Float(ReadF32(db.buffer, slot).value))
    ensures Column(db, pos, FieldOf(a)) != 0 && !IsCoordinate(a) ==>
      var slot := SlotOffset(db, at, Column(db, pos, FieldOf(a)));
      ReadU32(db.buffer, slot).Ok?
      && ReadString(db.buffer, ReadU32(db.buffer, slot).value + PointerAdjust(a)).Ok?
      && Get(DecodeRecord(db, pos, ipaddr, at).value, a)
         == Some(Text(ReadString(db.buffer, ReadU32(db.buffer, slot).value + PointerAdjust(a)).value))
  {
    DecodedFields(db, pos, ipaddr, at);
    if Column(db, pos, FieldOf(a)) != 0 {
      if IsCoordinate(a) {
        CoordinateSlot(db, pos, at, a);
      } else {
        TextSlot(db, pos, at, a);
      }
    }
  }

  /** A coordinate field with a column, read without error, is the f32 in its slot. */
  lemma CoordinateSlot(db: Database, pos: Layout.Positions, at: RecordRef, a: Attribute)
    requires db.header.dbType < Layout.TypeCount && IsCoordinate(a)
    requires Column(db, pos, FieldOf(a)) != 0 && AttributeAt(db, pos, at, a).Ok?
    ensures ReadF32(db.buffer, SlotOffset(db, at, Column(db, pos, FieldOf(a)))).Ok?
    ensures AttributeAt(db, pos, at, a).value == Some(Float(ReadF32(db.buffer, SlotOffset(db, at, Column(db, pos, FieldOf(a)))).value))
  {
  }

  /** A string field with a column, read without error, is the string its slot points to. */
  lemma TextSlot(db: Database, pos: Layout.Positions, at: RecordRef, a: Attribute)
    requires db.header.dbType < Layout.TypeCount && !IsCoordinate(a)
    requires Column(db, pos, FieldOf(a)) != 0 && AttributeAt(db, pos, at, a).Ok?
    ensures ReadU32(db.buffer, SlotOffset(db, at, Column(db, pos, FieldOf(a)))).Ok?
    ensures var pointer := ReadU32(db.buffer, SlotOffset(db, at, Column(db, pos, FieldOf(a)))).value;
      ReadString(db.buffer, pointer + PointerAdjust(a)).Ok?
      && AttributeAt(db, pos, at, a).value == Some(Text(ReadString(db.buffer, pointer + PointerAdjust(a)).value))
  {
  }

  /**
   * The country code and the country name share one slot: read without error, both are
   * present or both absent, and the code is the string one byte past the slot's pointer,
   * the name the string four bytes past it.
   */
  lemma CountryNamesShareSlot(db: Database, pos: Layout.Positions, at: RecordRef)
    requires db.header.dbType < Layout.TypeCount
    requires AttributeAt(db, pos, at, CountryShort).Ok? && AttributeAt(db, pos, at, CountryLong).Ok?
    ensures AttributeAt(db, pos, at, CountryShort).value.Some? <==> AttributeAt(db, pos, at, CountryLong).value.Some?
    ensures AttributeAt(db, pos, at, CountryShort).value.Some? ==>
      Column(db, pos, Layout.Country) != 0
      && var pointer := ReadU32(db.buffer, SlotOffset(db, at, Column(db, pos, Layout.Country)));
      pointer.Ok? && ReadString(db.buffer, pointer.value + 1).Ok? && ReadString(db.buffer, pointer.value + 4).Ok?
      && AttributeAt(db, pos, at, CountryShort).value == Some(Text(ReadString(db.buffer, pointer.value + 1).value))
      && AttributeAt(db, pos, at, CountryLong).value == Some(Text(ReadString(db.buffer, pointer.value + 4).value))
  {
    if Column(db, pos, Layout.Country) != 0 {
      TextSlot(db, pos, at, CountryShort);
      TextSlot(db, pos, at, CountryLong);
    }
  }

  /**
   * Which fields a record carries depends on the database type alone: two records
   * decoded from databases of the same type, with the same layout, have the same fields.
   */
  lemma PresenceDependsOnTypeOnly(db1: Database, db2: Database, pos: Layout.Positions,
                                  ipaddr1: IpAddress, ipaddr2: IpAddress, at1: RecordRef, at2: RecordRef, a: Attribute)
    requires db1.header.dbType == db2.header.dbType
    requires DecodeRecord(db1, pos, ipaddr1, at1).Ok? && DecodeRecord(db2, pos, ipaddr2, at2).Ok?
    ensures Get(DecodeRecord(db1, pos, ipaddr1, at1).value, a).Some?
            <==> Get(DecodeRecord(db2, pos, ipaddr2, at2).value, a).Some?
  {
    PresentIffColumn(db1, pos, ipaddr1, at1, a);
    PresentIffColumn(db2, pos, ipaddr2, at2, a);
  }

  /**
   * Writing a string field and reading it back: with the pointer encoded little-endian in
   * the field's slot and the length-prefixed string at pointer plus the adjustment, the
   * field reads as that string.
   */
  lemma TextFieldOfEncoded(db: Database, pos: Layout.Positions, at: RecordRef, a: Attribute,
                           pointer: u32, text: seq<byte>)
    requires db.header.dbType < Layout.TypeCount && !IsCoordinate(a)
    requires Column(db, pos, FieldOf(a)) != 0
    requires var slot := SlotOffset(db, at, Column(db, pos, FieldOf(a)));
      1 <= slot && slot + 3 <= |db.buffer| && db.buffer[slot - 1..slot + 3] == LeBytes(pointer, 4)
    requires var start := pointer + PointerAdjust(a);
      |text| < 256 && ValidUtf8(text) && start + |text| <= |db.buffer|
      && db.buffer[start - 1] == |text| && db.buffer[start..start + |text|] == text
    ensures OptionalText(db, pos, at, a) == Ok(Some(text))
  {
    PointerOfEncoded(db.buffer, SlotOffset(db, at, Column(db, pos, FieldOf(a))), pointer);
    TextOfEncoded(db.buffer, pointer + PointerAdjust(a), text);
  }

  /** Four little-endian bytes at a 1-based offset read back as the pointer they encode. */
  lemma PointerOfEncoded(buf: seq<byte>, offset: nat, pointer: u32)
    requires 1 <= offset && offset + 3 <= |buf| && buf[offset - 1..offset + 3] == LeBytes(pointer, 4)
    ensures ReadU32(buf, offset) == Ok(pointer)
  {
    assert Pow256(4) == Word1;
    LittleEndianOfLeBytes(pointer, 4);
  }

  /** A length byte followed by that many bytes of valid UTF-8 reads back as those bytes. */
  lemma TextOfEncoded(buf: seq<byte>, offset: nat, text: seq<byte>)
    requires 1 <= offset && offset + |text| <= |buf| && ValidUtf8(text)
    requires buf[offset - 1] == |text| && buf[offset..offset + |text|] == text
    ensures ReadString(buf, offset) == Ok(text)
  {
  }
}
