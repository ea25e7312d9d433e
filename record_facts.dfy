/**
 * What a decoded record means, field by field: which fields are present, where each
 * value comes from, and which read decides a failure.
 */
module RecordFacts {
  import opened Results
  import opened Header
  import opened Address
  import opened RecordDecoder
  import Layout

  /** Assembling succeeds exactly when every field was read. */
  lemma AssembleSucceedsIff(ip: nat, fields: FieldReads)
    ensures Assemble(ip, fields).Ok? <==> forall a :: ReadOf(fields, a).Ok?
  {
    if Assemble(ip, fields).Err? {
      var first := AssembleFailure(ip, fields);
    } else {
      AssembledFields(ip, fields);
    }
  }

  /** An assembled record holds the address and, for every field, the value that was read. */
  lemma AssembledFields(ip: nat, fields: FieldReads)
    requires Assemble(ip, fields).Ok?
    ensures Assemble(ip, fields).value.ip == Some(ip)
    ensures forall a :: ReadOf(fields, a).Ok? && Get(Assemble(ip, fields).value, a) == ReadOf(fields, a).value
  {
  }

  /** A failed assembly reports the failure of a field that was not read. */
  lemma AssembleFailure(ip: nat, fields: FieldReads) returns (first: Attribute)
    requires Assemble(ip, fields).Err?
    ensures ReadOf(fields, first) == Err(Assemble(ip, fields).error)
  {
    if fields.countryShort.Err? {
      first := CountryShort;
    } else if fields.countryLong.Err? {
      first := CountryLong;
    } else if fields.region.Err? {
      first := Region;
    } else if fields.city.Err? {
      first := City;
    } else if fields.isp.Err? {
      first := Isp;
    } else if fields.latitude.Err? {
      first := Latitude;
    } else if fields.longitude.Err? {
      first := Longitude;
    } else if fields.domain.Err? {
      first := Domain;
    } else if fields.zipCode.Err? {
      first := ZipCode;
    } else if fields.timeZone.Err? {
      first := TimeZone;
    } else if fields.netSpeed.Err? {
      first := NetSpeed;
    } else if fields.iddCode.Err? {
      first := IddCode;
    } else if fields.areaCode.Err? {
      first := AreaCode;
    } else if fields.weatherCode.Err? {
      first := WeatherCode;
    } else if fields.weatherName.Err? {
      first := WeatherName;
    } else if fields.mcc.Err? {
      first := Mcc;
    } else if fields.mnc.Err? {
      first := Mnc;
    } else if fields.mobileBrand.Err? {
      first := MobileBrand;
    } else if fields.elevation.Err? {
      first := Elevation;
    } else if fields.usageType.Err? {
      first := UsageType;
    } else {
      assert false;
    }
  }

  /** Reading a field through the per-record outcomes is reading that field alone. */
  lemma ReadOfFields(db: Database, pos: Layout.Positions, at: RecordRef, a: Attribute)
    requires db.header.dbType < Layout.TypeCount
    ensures ReadOf(ReadFields(db, pos, at), a) == AttributeAt(db, pos, at, a)
  {
  }

  /** A decode succeeds exactly when the address, the type and every field can be read. */
  lemma DecodeSucceedsIff(db: Database, pos: Layout.Positions, ipaddr: IpAddress, at: RecordRef)
    ensures DecodeRecord(db, pos, ipaddr, at).Ok? <==>
      ReadIp(db.buffer, ipaddr, IpFieldOffset(db, ipaddr, at.index)).Ok? &&
      db.header.dbType < Layout.TypeCount &&
      forall a :: AttributeAt(db, pos, at, a).Ok?
  {
    var ip := ReadIp(db.buffer, ipaddr, IpFieldOffset(db, ipaddr, at.index));
    if ip.Ok? && db.header.dbType < Layout.TypeCount {
      AssembleSucceedsIff(ip.value, ReadFields(db, pos, at));
      forall a {
        ReadOfFields(db, pos, at, a);
      }
    }
  }

  /**
   * A decoded record holds the address read at the ip offset and, for every field,
   * exactly what reading that field alone gives.
   */
  lemma DecodedFields(db: Database, pos: Layout.Positions, ipaddr: IpAddress, at: RecordRef)
    requires DecodeRecord(db, pos, ipaddr, at).Ok?
    ensures db.header.dbType < Layout.TypeCount
    ensures ReadIp(db.buffer, ipaddr, IpFieldOffset(db, ipaddr, at.index)).Ok?
    ensures DecodeRecord(db, pos, ipaddr, at).value.ip ==
      Some(ReadIp(db.buffer, ipaddr, IpFieldOffset(db, ipaddr, at.index)).value)
    ensures forall a ::
      AttributeAt(db, pos, at, a).Ok? && Get(DecodeRecord(db, pos, ipaddr, at).value, a) == AttributeAt(db, pos, at, a).value
  {
    var ip := ReadIp(db.buffer, ipaddr, IpFieldOffset(db, ipaddr, at.index)).value;
    AssembledFields(ip, ReadFields(db, pos, at));
    forall a {
      ReadOfFields(db, pos, at, a);
    }
  }

  /**
   * A failing decode fails on the address, on a type past the positions tables, or on
   * a field that cannot be read; the error is a bounds or a UTF-8 one.
   */
  lemma DecodeFailure(db: Database, pos: Layout.Positions, ipaddr: IpAddress, at: RecordRef)
    requires DecodeRecord(db, pos, ipaddr, at).Err?
    ensures DecodeRecord(db, pos, ipaddr, at).error in {OutOfBounds, InvalidUtf8}
    ensures ReadIp(db.buffer, ipaddr, IpFieldOffset(db, ipaddr, at.index)).Ok? && db.header.dbType < Layout.TypeCount ==>
      exists a :: AttributeAt(db, pos, at, a) == Err(DecodeRecord(db, pos, ipaddr, at).error)
  {
    var ip := ReadIp(db.buffer, ipaddr, IpFieldOffset(db, ipaddr, at.index));
    if ip.Ok? && db.header.dbType < Layout.TypeCount {
      var first := AssembleFailure(ip.value, ReadFields(db, pos, at));
      ReadOfFields(db, pos, at, first);
      ReadError(db, pos, at, first);
    }
  }

  /** Reading a field fails only out of bounds or on invalid UTF-8. */
  lemma ReadError(db: Database, pos: Layout.Positions, at: RecordRef, a: Attribute)
    requires db.header.dbType < Layout.TypeCount
    ensures AttributeAt(db, pos, at, a).Err? ==> AttributeAt(db, pos, at, a).error in {OutOfBounds, InvalidUtf8}
  {
  }

  /** A field is present exactly when the positions table gives it a column for the database type. */
  lemma PresentIffColumn(db: Database, pos: Layout.Positions, ipaddr: IpAddress, at: RecordRef, a: Attribute)
    requires DecodeRecord(db, pos, ipaddr, at).Ok?
    ensures db.header.dbType < Layout.TypeCount
    ensures Get(DecodeRecord(db, pos, ipaddr, at).value, a).Some? <==> Column(db, pos, FieldOf(a)) != 0
  {
    DecodedFields(db, pos, ipaddr, at);
    TextPresence(db, pos, at, a);
    CoordinatePresence(db, pos, at, a);
  }

  /** A string field that was read is present exactly when its column is nonzero. */
  lemma TextPresence(db: Database, pos: Layout.Positions, at: RecordRef, a: Attribute)
    requires db.header.dbType < Layout.TypeCount
    ensures OptionalText(db, pos, at, a).Ok? ==>
      (OptionalText(db, pos, at, a).value.Some? <==> Column(db, pos, FieldOf(a)) != 0)
  {
  }

  /** A coordinate field that was read is present exactly when its column is nonzero. */
  lemma CoordinatePresence(db: Database, pos: Layout.Positions, at: RecordRef, a: Attribute)
    requires db.header.dbType < Layout.TypeCount
    ensures OptionalCoordinate(db, pos, at, a).Ok? ==>
      (OptionalCoordinate(db, pos, at, a).value.Some? <==> Column(db, pos, FieldOf(a)) != 0)
  {
  }
}
