/** The post-processing half of `get_geolocation_info`. The database lookup
    itself (`geo_reader.city(ip)`) is foreign code: it is modelled as a value
    of type `Lookup` that the caller passes in, whose `None` stands for every
    way the lookup can fail (address not in the database, malformed address,
    closed reader), all of which the source catches alike. */
module GeoResolver {
  import opened Wrappers

  /** The placeholder the source stores for a missing country or city name. */
  const NotAvailable: string := "N/A"

  /** What a successful lookup reports; a name may be absent. Latitude and
      longitude are not carried (see README). */
  datatype GeoResponse = GeoResponse(countryName: Option<string>, cityName: Option<string>)

  /** The `geo_info` dictionary stored with a peer. */
  datatype GeoRecord = GeoRecord(country: string, city: string)

  /** The foreign lookup: an address to a response, or `None` when it raised. */
  type Lookup = string -> Option<GeoResponse>

  /** `name if name else "N/A"`: Python treats both `None` and the empty
      string as false. */
  function OrNotAvailable(name: Option<string>): (r: string)
    ensures r != ""
    ensures r == NotAvailable <==> name.None? || name.value == "" || name.value == NotAvailable
    ensures name.Some? && name.value != "" ==> r == name.value
  {
    match name
    case Some(n) => if n != "" then n else NotAvailable
    case None => NotAvailable
  }

  /** `get_geolocation_info`: a failed lookup gives `None`; otherwise a record
      whose missing names are replaced by "N/A". */
  function GeolocationInfo(response: Option<GeoResponse>): (r: Option<GeoRecord>)
    ensures r.None? <==> response.None?
    ensures r.Some? ==> r.value.country != "" && r.value.city != ""
    ensures r.Some? ==> (r.value.country == NotAvailable <==>
      response.value.countryName.None? || response.value.countryName.value in {"", NotAvailable})
    ensures r.Some? ==> (r.value.city == NotAvailable <==>
      response.value.cityName.None? || response.value.cityName.value in {"", NotAvailable})
    ensures r.Some? && response.value.countryName.Some? && response.value.countryName.value != "" ==>
      r.value.country == response.value.countryName.value
    ensures r.Some? && response.value.cityName.Some? && response.value.cityName.value != "" ==>
      r.value.city == response.value.cityName.value
  {
    match response
    case None => None
    case Some(resp) => Some(GeoRecord(OrNotAvailable(resp.countryName), OrNotAvailable(resp.cityName)))
  }
}
