/**
 * Decoding one range record into a location record. Each optional field is filled
 * only when the positions table of its kind has a nonzero column for the database
 * type; its slot is at `base + index * (column_count * 4 + extra) + extra + 4 * (column - 1)`.
 * A string field's slot holds a u32 pointer and the string is read at pointer + 1
 * (pointer + 4 for the country name); latitude and longitude are read directly at
 * the slot. Any failing read ends the decode with no record.
 */
module RecordDecoder {
  import opened Results
  import opened Bytes
  import opened ByteReader
  import opened Header
  import opened Address
  import Layout

  /** The optional fields of a location record, in the order the decoder fills them. */
  datatype Attribute =
    | CountryShort | CountryLong | Region | City | Isp | Latitude | Longitude | Domain | ZipCode
    | TimeZone | NetSpeed | IddCode | AreaCode | WeatherCode | WeatherName | Mcc | Mnc | MobileBrand | Elevation | UsageType

  /** The value of a field: the bytes of a UTF-8 string, or the bit pattern of an f32. */
  datatype Value = Text(text: seq<byte>) | Float(bits: nat)

  /**
   * A location record: the address read from the range table (kept as a number), the
   * string fields as their bytes and the coordinates as f32 bit patterns; an absent
   * field is None.
   */
  datatype LocationRecord = LocationRecord(
    ip: Option<nat>,
    countryShort: Option<seq<byte>>,
    countryLong: Option<seq<byte>>,
    region: Option<seq<byte>>,
    city: Option<seq<byte>>,
    isp: Option<seq<byte>>,
    latitude: Option<nat>,
    longitude: Option<nat>,
    domain: Option<seq<byte>>,
    zipCode: Option<seq<byte>>,
    timeZone: Option<seq<byte>>,
    netSpeed: Option<seq<byte>>,
    iddCode: Option<seq<byte>>,
    areaCode: Option<seq<byte>>,
    weatherCode: Option<seq<byte>>,
    weatherName: Option<seq<byte>>,
    mcc: Option<seq<byte>>,
    mnc: Option<seq<byte>>,
    mobileBrand: Option<seq<byte>>,
    elevation: Option<seq<byte>>,
    usageType: Option<seq<byte>>)

  /** The record every decode starts from: every field None. */
  const Blank := LocationRecord(None, None, None, None, None, None, None, None, None, None, None, None, None, None, None, None, None, None, None, None, None)

  /** A field of a record, as a Value. */
  function Get(rec: LocationRecord, a: Attribute): Option<Value>
  {
    match a
    case CountryShort => if rec.countryShort.Some? then Some(Text(rec.countryShort.value)) else None
    case CountryLong => if rec.countryLong.Some? then Some(Text(rec.countryLong.value)) else None
    case Region => if rec.region.Some? then Some(Text(rec.region.value)) else None
    case City => if rec.city.Some? then Some(Text(rec.city.value)) else None
    case Isp => if rec.isp.Some? then Some(Text(rec.isp.value)) else None
    case Latitude => if rec.latitude.Some? then Some(Float(rec.latitude.value)) else None
    case Longitude => if rec.longitude.Some? then Some(Float(rec.longitude.value)) else None
    case Domain => if rec.domain.Some? then Some(Text(rec.domain.value)) else None
    case ZipCode => if rec.zipCode.Some? then Some(Text(rec.zipCode.value)) else None
    case TimeZone => if rec.timeZone.Some? then Some(Text(rec.timeZone.value)) else None
    case NetSpeed => if rec.netSpeed.Some? then Some(Text(rec.netSpeed.value)) else None
    case IddCode => if rec.iddCode.Some? then Some(Text(rec.iddCode.value)) else None
    case AreaCode => if rec.areaCode.Some? then Some(Text(rec.areaCode.value)) else None
    case WeatherCode => if rec.weatherCode.Some? then Some(Text(rec.weatherCode.value)) else None
    case WeatherName => if rec.weatherName.Some? then Some(Text(rec.weatherName.value)) else None
    case Mcc => if rec.mcc.Some? then Some(Text(rec.mcc.value)) else None
    case Mnc => if rec.mnc.Some? then Some(Text(rec.mnc.value)) else None
    case MobileBrand => if rec.mobileBrand.Some? then Some(Text(rec.mobileBrand.value)) else None
    case Elevation => if rec.elevation.Some? then Some(Text(rec.elevation.value)) else None
    case UsageType => if rec.usageType.Some? then Some(Text(rec.usageType.value)) else None
  }

  /** The positions table that governs a field. */
  function FieldOf(a: Attribute): Layout.Field
  {
    match a
    case CountryShort => Layout.Country
    case CountryLong => Layout.Country
    case Region => Layout.Region
    case City => Layout.City
    case Isp => Layout.Isp
    case Latitude => Layout.Latitude
    case Longitude => Layout.Longitude
    case Domain => Layout.Domain
    case ZipCode => Layout.ZipCode
    case TimeZone => Layout.TimeZone
    case NetSpeed => Layout.NetSpeed
    case IddCode => Layout.IddCode
    case AreaCode => Layout.AreaCode
    case WeatherCode => Layout.WeatherStationCode
    case WeatherName => Layout.WeatherStationName
    case Mcc => Layout.Mcc
    case Mnc => Layout.Mnc
    case MobileBrand => Layout.MobileBrand
    case Elevation => Layout.Elevation
    case UsageType => Layout.UsageType
  }

  /** Whether a field holds a coordinate (an f32) rather than a string. */
  predicate IsCoordinate(a: Attribute)
  {
    a == Latitude || a == Longitude
  }

  /** How far past the pointer a string field starts. */
  function PointerAdjust(a: Attribute): nat
  {
    if a == CountryLong then 4 else 1
  }

  /** Which range record to decode: the table base, the extra bytes per record (0 or 12) and the index. */
  datatype RecordRef = RecordRef(base: nat, extra: nat, index: nat)

  /** The byte offset of column `column` (1-based) in the record: the `calc_off` closure. */
  function SlotOffset(db: Database, at: RecordRef, column: nat): nat
    requires column >= 1
  {
    at.base + at.index * (db.header.dbColumn * 4 + at.extra) + at.extra + 4 * (column - 1)
  }

  /**
   * Where the `ip` field is read: the family's table address plus `index * column_count * 4`,
   * for both families. It uses neither the base passed in nor the 12 extra bytes of an IPv6 record.
   */
  function IpFieldOffset(db: Database, ipaddr: IpAddress, index: nat): nat
  {
    (if ipaddr.V4? then db.header.ipv4DbAddr else db.header.ipv6DbAddr) + index * db.header.dbColumn * 4
  }

  /** An address of the query's family read from the buffer. */
  function ReadIp(buf: seq<byte>, ipaddr: IpAddress, offset: nat): Result<nat>
  {
    if ipaddr.V4? then ReadIpv4(buf, offset) else ReadIpv6(buf, offset)
  }

  /** The column of a field for the database type: 0 when the type has no such field. */
  function Column(db: Database, pos: Layout.Positions, field: Layout.Field): nat
    requires db.header.dbType < Layout.TypeCount
  {
    pos(field)[db.header.dbType]
  }

  /**
   * A string field: absent when its column is 0; otherwise the u32 pointer in its slot,
   * then the length-prefixed string at pointer + adjust.
   */
  function OptionalText(db: Database, pos: Layout.Positions, at: RecordRef, a: Attribute)
    : Result<Option<seq<byte>>>
    requires db.header.dbType < Layout.TypeCount
  {
    var column := Column(db, pos, FieldOf(a));
    if column == 0 then Ok(None)
    else
      var pointer :- ReadU32(db.buffer, SlotOffset(db, at, column));
      var text :- ReadString(db.buffer, pointer + PointerAdjust(a));
      Ok(Some(text))
  }

  /** A coordinate field: absent when its column is 0; otherwise the f32 stored in its slot. */
  function OptionalCoordinate(db: Database, pos: Layout.Positions, at: RecordRef, a: Attribute)
    : Result<Option<nat>>
    requires db.header.dbType < Layout.TypeCount
  {
    var column := Column(db, pos, FieldOf(a));
    if column == 0 then Ok(None)
    else
      var bits :- ReadF32(db.buffer, SlotOffset(db, at, column));
      Ok(Some(bits))
  }

  /** One field on its own, as a Value. */
  function AttributeAt(db: Database, pos: Layout.Positions, at: RecordRef, a: Attribute): Result<Option<Value>>
    requires db.header.dbType < Layout.TypeCount
  {
    if IsCoordinate(a) then
      var bits :- OptionalCoordinate(db, pos, at, a);
      Ok(if bits.Some? then Some(Float(bits.value)) else None)
    else
      var text :- OptionalText(db, pos, at, a);
      Ok(if text.Some? then Some(Text(text.value)) else None)
  }

  /** The outcome of reading each field of one record on its own. */
  datatype FieldReads = FieldReads(
    countryShort: Result<Option<seq<byte>>>,
    countryLong: Result<Option<seq<byte>>>,
    region: Result<Option<seq<byte>>>,
    city: Result<Option<seq<byte>>>,
    isp: Result<Option<seq<byte>>>,
    latitude: Result<Option<nat>>,
    longitude: Result<Option<nat>>,
    domain: Result<Option<seq<byte>>>,
    zipCode: Result<Option<seq<byte>>>,
    timeZone: Result<Option<seq<byte>>>,
    netSpeed: Result<Option<seq<byte>>>,
    iddCode: Result<Option<seq<byte>>>,
    areaCode: Result<Option<seq<byte>>>,
    weatherCode: Result<Option<seq<byte>>>,
    weatherName: Result<Option<seq<byte>>>,
    mcc: Result<Option<seq<byte>>>,
    mnc: Result<Option<seq<byte>>>,
    mobileBrand: Result<Option<seq<byte>>>,
    elevation: Result<Option<seq<byte>>>,
    usageType: Result<Option<seq<byte>>>)

  /** The outcome of reading field `a`, as a Value. */
  function ReadOf(fields: FieldReads, a: Attribute): Result<Option<Value>>
  {
    match a
    case CountryShort => var v :- fields.countryShort; Ok(if v.Some? then Some(Text(v.value)) else None)
    case CountryLong => var v :- fields.countryLong; Ok(if v.Some? then Some(Text(v.value)) else None)
    case Region => var v :- fields.region; Ok(if v.Some? then Some(Text(v.value)) else None)
    case City => var v :- fields.city; Ok(if v.Some? then Some(Text(v.value)) else None)
    case Isp => var v :- fields.isp; Ok(if v.Some? then Some(Text(v.value)) else None)
    case Latitude => var v :- fields.latitude; Ok(if v.Some? then Some(Float(v.value)) else None)
    case Longitude => var v :- fields.longitude; Ok(if v.Some? then Some(Float(v.value)) else None)
    case Domain => var v :- fields.domain; Ok(if v.Some? then Some(Text(v.value)) else None)
    case ZipCode => var v :- fields.zipCode; Ok(if v.Some? then Some(Text(v.value)) else None)
    case TimeZone => var v :- fields.timeZone; Ok(if v.Some? then Some(Text(v.value)) else None)
    case NetSpeed => var v :- fields.netSpeed; Ok(if v.Some? then Some(Text(v.value)) else None)
    case IddCode => var v :- fields.iddCode; Ok(if v.Some? then Some(Text(v.value)) else None)
    case AreaCode => var v :- fields.areaCode; Ok(if v.Some? then Some(Text(v.value)) else None)
    case WeatherCode => var v :- fields.weatherCode; Ok(if v.Some? then Some(Text(v.value)) else None)
    case WeatherName => var v :- fields.weatherName; Ok(if v.Some? then Some(Text(v.value)) else None)
    case Mcc => var v :- fields.mcc; Ok(if v.Some? then Some(Text(v.value)) else None)
    case Mnc => var v :- fields.mnc; Ok(if v.Some? then Some(Text(v.value)) else None)
    case MobileBrand => var v :- fields.mobileBrand; Ok(if v.Some? then Some(Text(v.value)) else None)
    case Elevation => var v :- fields.elevation; Ok(if v.Some? then Some(Text(v.value)) else None)
    case UsageType => var v :- fields.usageType; Ok(if v.Some? then Some(Text(v.value)) else None)
  }

  /** Every field of the record at `at`, each read on its own. */
  function ReadFields(db: Database, pos: Layout.Positions, at: RecordRef): FieldReads
    requires db.header.dbType < Layout.TypeCount
  {
    FieldReads(
      OptionalText(db, pos, at, CountryShort),
      OptionalText(db, pos, at, CountryLong),
      OptionalText(db, pos, at, Region),
      OptionalText(db, pos, at, City),
      OptionalText(db, pos, at, Isp),
      OptionalCoordinate(db, pos, at, Latitude),
      OptionalCoordinate(db, pos, at, Longitude),
      OptionalText(db, pos, at, Domain),
      OptionalText(db, pos, at, ZipCode),
      OptionalText(db, pos, at, TimeZone),
      OptionalText(db, pos, at, NetSpeed),
      OptionalText(db, pos, at, IddCode),
      OptionalText(db, pos, at, AreaCode),
      OptionalText(db, pos, at, WeatherCode),
      OptionalText(db, pos, at, WeatherName),
      OptionalText(db, pos, at, Mcc),
      OptionalText(db, pos, at, Mnc),
      OptionalText(db, pos, at, MobileBrand),
      OptionalText(db, pos, at, Elevation),
      OptionalText(db, pos, at, UsageType))
  }

  /**
   * A record from its address and the outcome of reading each field: the fields are
   * taken in fill order and the first failure is the result.
   */
  function Assemble(ip: nat, fields: FieldReads): Result<LocationRecord>
  {
    var countryShort :- fields.countryShort;
    var countryLong :- fields.countryLong;
    var region :- fields.region;
    var city :- fields.city;
    var isp :- fields.isp;
    var latitude :- fields.latitude;
    var longitude :- fields.longitude;
    var domain :- fields.domain;
    var zipCode :- fields.zipCode;
    var timeZone :- fields.timeZone;
    var netSpeed :- fields.netSpeed;
    var iddCode :- fields.iddCode;
    var areaCode :- fields.areaCode;
    var weatherCode :- fields.weatherCode;
    var weatherName :- fields.weatherName;
    var mcc :- fields.mcc;
    var mnc :- fields.mnc;
    var mobileBrand :- fields.mobileBrand;
    var elevation :- fields.elevation;
    var usageType :- fields.usageType;
    Ok(LocationRecord(Some(ip), countryShort, countryLong, region, city, isp, latitude, longitude, domain, zipCode, timeZone, netSpeed, iddCode, areaCode, weatherCode, weatherName, mcc, mnc, mobileBrand, elevation, usageType))
  }

  /** The record at `at`: its address, then every field in fill order. */
  function DecodeRecord(db: Database, pos: Layout.Positions, ipaddr: IpAddress, at: RecordRef): Result<LocationRecord>
  {
    var ip :- ReadIp(db.buffer, ipaddr, IpFieldOffset(db, ipaddr, at.index));
    if db.header.dbType >= Layout.TypeCount then Err(OutOfBounds)
    else Assemble(ip, ReadFields(db, pos, at))
  }

  /**
   * Fills a record field by field, as the source does: the address first, then each
   * field in fill order, each present only when its column is nonzero. Indexing a
   * 25-entry positions table with a larger type is an out-of-range index.
   */
  method ReadRecord(db: Database, pos: Layout.Positions, ipaddr: IpAddress, base: nat, extra: nat, index: nat)
    returns (r: Result<LocationRecord>)
    ensures r == DecodeRecord(db, pos, ipaddr, RecordRef(base, extra, index))
  {
    var at := RecordRef(base, extra, index);
    var rec := Blank;
    var ip :- ReadIp(db.buffer, ipaddr, IpFieldOffset(db, ipaddr, index));
    rec := rec.(ip := Some(ip));
    if db.header.dbType >= Layout.TypeCount {
      return Err(OutOfBounds);
    }
    var countryShort :- OptionalText(db, pos, at, CountryShort);
    rec := rec.(countryShort := countryShort);
    var countryLong :- OptionalText(db, pos, at, CountryLong);
    rec := rec.(countryLong := countryLong);
    var region :- OptionalText(db, pos, at, Region);
    rec := rec.(region := region);
    var city :- OptionalText(db, pos, at, City);
    rec := rec.(city := city);
    var isp :- OptionalText(db, pos, at, Isp);
    rec := rec.(isp := isp);
    var latitude :- OptionalCoordinate(db, pos, at, Latitude);
    rec := rec.(latitude := latitude);
    var longitude :- OptionalCoordinate(db, pos, at, Longitude);
    rec := rec.(longitude := longitude);
    var domain :- OptionalText(db, pos, at, Domain);
    rec := rec.(domain := domain);
    var zipCode :- OptionalText(db, pos, at, ZipCode);
    rec := rec.(zipCode := zipCode);
    var timeZone :- OptionalText(db, pos, at, TimeZone);
    rec := rec.(timeZone := timeZone);
    var netSpeed :- OptionalText(db, pos, at, NetSpeed);
    rec := rec.(netSpeed := netSpeed);
    var iddCode :- OptionalText(db, pos, at, IddCode);
    rec := rec.(iddCode := iddCode);
    var areaCode :- OptionalText(db, pos, at, AreaCode);
    rec := rec.(areaCode := areaCode);
    var weatherCode :- OptionalText(db, pos, at, WeatherCode);
    rec := rec.(weatherCode := weatherCode);
    var weatherName :- OptionalText(db, pos, at, WeatherName);
    rec := rec.(weatherName := weatherName);
    var mcc :- OptionalText(db, pos, at, Mcc);
    rec := rec.(mcc := mcc);
    var mnc :- OptionalText(db, pos, at, Mnc);
    rec := rec.(mnc := mnc);
    var mobileBrand :- OptionalText(db, pos, at, MobileBrand);
    rec := rec.(mobileBrand := mobileBrand);
    var elevation :- OptionalText(db, pos, at, Elevation);
    rec := rec.(elevation := elevation);
    var usageType :- OptionalText(db, pos, at, UsageType);
    rec := rec.(usageType := usageType);
    return Ok(rec);
  }
}
