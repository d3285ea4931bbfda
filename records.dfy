/** The server's records as the components receive them. */
module Records {
  import opened Wrappers
  import opened Clock

  /**
   * A reservation of one building's common area. `start` and `end` are the
   * ISO strings of the record already read by `new Date`.
   */
  datatype Reservation = Reservation(id: string, ownerName: string, building: string, start: Stamp, end: Stamp)

  /** JavaScript truthiness of an optional string: missing and "" are false. */
  predicate Truthy(value: Option<string>) {
    value.Some? && value.value != ""
  }

  /** JavaScript's `value || fallback` on an optional string. */
  function OrElse(value: Option<string>, fallback: string): (s: string)
    ensures Truthy(value) ==> s == value.value
    ensures !Truthy(value) ==> s == fallback
  {
    if Truthy(value) then value.value else fallback
  }

  /** The text both history tables show for a missing field. */
  const NotAvailable := "N/A"

  /** The fields of a history entry's `eventDetails` JSON that the components read. */
  datatype Details = Details(start: Option<string>, end: Option<string>, building: Option<string>, ownerName: Option<string>)

  /** `JSON.parse("{}")`: every field missing. */
  const NoDetails := Details(None, None, None, None)

  /**
   * `JSON.parse(entry.eventDetails || "{}")`, given the parse of a non-empty
   * text as `parseJson`: a missing or empty text falls back to "{}".
   */
  function ParseDetails(eventDetails: Option<string>, parseJson: string -> Details): (d: Details)
    ensures !Truthy(eventDetails) ==> d == NoDetails
    ensures Truthy(eventDetails) ==> d == parseJson(eventDetails.value)
  {
    if Truthy(eventDetails) then parseJson(eventDetails.value) else NoDetails
  }

  /**
   * One entry of the reservation history. `eventDetails` is the raw JSON text
   * as sent; `details` is that text already parsed, as `DetailsParsed` states.
   */
  datatype HistoryEntry = HistoryEntry(
    eventId: string,
    action: string,
    timestamp: string,
    userName: Option<string>,
    eventDetails: Option<string>,
    details: Details)

  /** The entry's `details` are what both tables parse from its `eventDetails`. */
  predicate DetailsParsed(entry: HistoryEntry, parseJson: string -> Details) {
    entry.details == ParseDetails(entry.eventDetails, parseJson)
  }

  /** Row striping used by both tables: `index % 2 === 0 ? "bg-white" : "bg-gray-50"`. */
  function Shade(index: nat): string {
    if index % 2 == 0 then "bg-white" else "bg-gray-50"
  }

  /** Even rows are white and odd rows grey, so neighbouring rows always differ. */
  lemma ShadeStripes(index: nat)
    ensures Shade(index) == "bg-white" <==> index % 2 == 0
    ensures Shade(index) == "bg-gray-50" <==> index % 2 == 1
    ensures Shade(index) != Shade(index + 1) && Shade(index) == Shade(index + 2)
  {
  }
}
