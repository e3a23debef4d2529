/** Rows of the earthquake table, from the raw CSV row to the enriched,
    clustered row that `load_data` returns. */
module QuakeTypes {

  datatype Option<T> = None | Some(value: T)

  /** A CSV row before its `time` cell has been parsed. */
  datatype RawEvent = RawEvent(
    time: string,
    latitude: real,
    longitude: real,
    magnitude: real,
    depth: real,
    place: string)

  /** A row whose `time` parsed. Timestamps are whole nanoseconds since the
      Unix epoch, the resolution of the `datetime64[ns]` column the parse
      produces: the `%f` field may carry up to nine fractional digits. */
  datatype Event = Event(
    time: int,
    latitude: real,
    longitude: real,
    magnitude: real,
    depth: real,
    place: string)

  datatype Risk = Low | Medium | High | Critical

  datatype Tectonic = Crustal | Intermediate | Deep

  /** A row with its `risk_level` (missing when the magnitude falls in no bin)
      and its `tectonic_type`. */
  datatype Classified = Classified(event: Event, riskLevel: Option<Risk>, tectonicType: Tectonic)

  /** A row of the table `load_data` returns: the predecessor columns
      `dist_km` and `hours_since_prev`, the `cluster_flag`, and the
      `cluster_id` (missing, NaN in the source, for non-members). */
  datatype Enriched = Enriched(
    row: Classified,
    distKm: real,
    hoursSincePrev: real,
    clusterFlag: bool,
    clusterId: Option<nat>)
}
