/**
 * The per-type field layout (the `positions` tables). Each optional field kind has
 * a table of 25 entries indexed by the database type: 0 when the type has no such
 * field, otherwise the field's 1-based column in a range record. The entries are
 * static data of the format and are not part of this model; a layout is a parameter.
 */
module Layout {

  /** The field kinds that have a positions table; country code and name share one. */
  datatype Field =
    | Country | Region | City | Isp | Latitude | Longitude | Domain | ZipCode | TimeZone
    | NetSpeed | IddCode | AreaCode | WeatherStationCode | WeatherStationName
    | Mcc | Mnc | MobileBrand | Elevation | UsageType

  /** Every positions table is a `[usize; 25]` array. */
  const TypeCount: nat := 25

  /** One positions table per field kind. */
  type Positions = pos: Field -> seq<nat> | forall f :: |pos(f)| == TypeCount
    witness (f: Field) => seq(TypeCount, _ => 0)
}
